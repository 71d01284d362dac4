/** The winit backend's keyboard translation (the `From<VirtualKeyCode>`
    conversion of src/window/backends/winit_backend.rs:388-553) and the
    decision its event-loop closure takes on every event (lines 84-121). */
module WinitBackend {
  import opened Wrappers
  import Keys = KeyCodes
  import GameStates

  /** winit's virtual key codes, numbered in the order of the conversion's
      match arms: `Key1`..`Key9` first, then `Key0`, then the rest in the
      same order as the engine registers its own codes. */
  newtype VirtualKeyCode = v: int | 0 <= v < 161

  const Key1: VirtualKeyCode := 0
  const Key2: VirtualKeyCode := 1
  const Key3: VirtualKeyCode := 2
  const Key4: VirtualKeyCode := 3
  const Key5: VirtualKeyCode := 4
  const Key6: VirtualKeyCode := 5
  const Key7: VirtualKeyCode := 6
  const Key8: VirtualKeyCode := 7
  const Key9: VirtualKeyCode := 8
  const Key0: VirtualKeyCode := 9
  const A: VirtualKeyCode := 10
  const B: VirtualKeyCode := 11
  const C: VirtualKeyCode := 12
  const D: VirtualKeyCode := 13
  const E: VirtualKeyCode := 14
  const F: VirtualKeyCode := 15
  const G: VirtualKeyCode := 16
  const H: VirtualKeyCode := 17
  const I: VirtualKeyCode := 18
  const J: VirtualKeyCode := 19
  const K: VirtualKeyCode := 20
  const L: VirtualKeyCode := 21
  const M: VirtualKeyCode := 22
  const N: VirtualKeyCode := 23
  const O: VirtualKeyCode := 24
  const P: VirtualKeyCode := 25
  const Q: VirtualKeyCode := 26
  const R: VirtualKeyCode := 27
  const S: VirtualKeyCode := 28
  const T: VirtualKeyCode := 29
  const U: VirtualKeyCode := 30
  const V: VirtualKeyCode := 31
  const W: VirtualKeyCode := 32
  const X: VirtualKeyCode := 33
  const Y: VirtualKeyCode := 34
  const Z: VirtualKeyCode := 35
  const Escape: VirtualKeyCode := 36
  const F1: VirtualKeyCode := 37
  const F2: VirtualKeyCode := 38
  const F3: VirtualKeyCode := 39
  const F4: VirtualKeyCode := 40
  const F5: VirtualKeyCode := 41
  const F6: VirtualKeyCode := 42
  const F7: VirtualKeyCode := 43
  const F8: VirtualKeyCode := 44
  const F9: VirtualKeyCode := 45
  const F10: VirtualKeyCode := 46
  const F11: VirtualKeyCode := 47
  const F12: VirtualKeyCode := 48
  const F13: VirtualKeyCode := 49
  const F14: VirtualKeyCode := 50
  const F15: VirtualKeyCode := 51
  const F16: VirtualKeyCode := 52
  const F17: VirtualKeyCode := 53
  const F18: VirtualKeyCode := 54
  const F19: VirtualKeyCode := 55
  const F20: VirtualKeyCode := 56
  const F21: VirtualKeyCode := 57
  const F22: VirtualKeyCode := 58
  const F23: VirtualKeyCode := 59
  const F24: VirtualKeyCode := 60
  const Snapshot: VirtualKeyCode := 61
  const Scroll: VirtualKeyCode := 62
  const Pause: VirtualKeyCode := 63
  const Insert: VirtualKeyCode := 64
  const Home: VirtualKeyCode := 65
  const Delete: VirtualKeyCode := 66
  const End: VirtualKeyCode := 67
  const PageDown: VirtualKeyCode := 68
  const PageUp: VirtualKeyCode := 69
  const Left: VirtualKeyCode := 70
  const Up: VirtualKeyCode := 71
  const Right: VirtualKeyCode := 72
  const Down: VirtualKeyCode := 73
  const Back: VirtualKeyCode := 74
  const Return: VirtualKeyCode := 75
  const Space: VirtualKeyCode := 76
  const Compose: VirtualKeyCode := 77
  const Caret: VirtualKeyCode := 78
  const Numlock: VirtualKeyCode := 79
  const Numpad0: VirtualKeyCode := 80
  const Numpad1: VirtualKeyCode := 81
  const Numpad2: VirtualKeyCode := 82
  const Numpad3: VirtualKeyCode := 83
  const Numpad4: VirtualKeyCode := 84
  const Numpad5: VirtualKeyCode := 85
  const Numpad6: VirtualKeyCode := 86
  const Numpad7: VirtualKeyCode := 87
  const Numpad8: VirtualKeyCode := 88
  const Numpad9: VirtualKeyCode := 89
  const AbntC1: VirtualKeyCode := 90
  const AbntC2: VirtualKeyCode := 91
  const Add: VirtualKeyCode := 92
  const Apostrophe: VirtualKeyCode := 93
  const Apps: VirtualKeyCode := 94
  const At: VirtualKeyCode := 95
  const Ax: VirtualKeyCode := 96
  const Backslash: VirtualKeyCode := 97
  const Calculator: VirtualKeyCode := 98
  const Capital: VirtualKeyCode := 99
  const Colon: VirtualKeyCode := 100
  const Comma: VirtualKeyCode := 101
  const Convert: VirtualKeyCode := 102
  const Decimal: VirtualKeyCode := 103
  const Divide: VirtualKeyCode := 104
  const Equals: VirtualKeyCode := 105
  const Grave: VirtualKeyCode := 106
  const Kana: VirtualKeyCode := 107
  const Kanji: VirtualKeyCode := 108
  const LAlt: VirtualKeyCode := 109
  const LBracket: VirtualKeyCode := 110
  const LControl: VirtualKeyCode := 111
  const LShift: VirtualKeyCode := 112
  const LWin: VirtualKeyCode := 113
  const Mail: VirtualKeyCode := 114
  const MediaSelect: VirtualKeyCode := 115
  const MediaStop: VirtualKeyCode := 116
  const Minus: VirtualKeyCode := 117
  const Multiply: VirtualKeyCode := 118
  const Mute: VirtualKeyCode := 119
  const MyComputer: VirtualKeyCode := 120
  const NavigateForward: VirtualKeyCode := 121
  const NavigateBackward: VirtualKeyCode := 122
  const NextTrack: VirtualKeyCode := 123
  const NoConvert: VirtualKeyCode := 124
  const NumpadComma: VirtualKeyCode := 125
  const NumpadEnter: VirtualKeyCode := 126
  const NumpadEquals: VirtualKeyCode := 127
  const OEM102: VirtualKeyCode := 128
  const Period: VirtualKeyCode := 129
  const PlayPause: VirtualKeyCode := 130
  const Power: VirtualKeyCode := 131
  const PrevTrack: VirtualKeyCode := 132
  const RAlt: VirtualKeyCode := 133
  const RBracket: VirtualKeyCode := 134
  const RControl: VirtualKeyCode := 135
  const RShift: VirtualKeyCode := 136
  const RWin: VirtualKeyCode := 137
  const Semicolon: VirtualKeyCode := 138
  const Slash: VirtualKeyCode := 139
  const Sleep: VirtualKeyCode := 140
  const Stop: VirtualKeyCode := 141
  const Subtract: VirtualKeyCode := 142
  const Sysrq: VirtualKeyCode := 143
  const Tab: VirtualKeyCode := 144
  const Underline: VirtualKeyCode := 145
  const Unlabeled: VirtualKeyCode := 146
  const VolumeDown: VirtualKeyCode := 147
  const VolumeUp: VirtualKeyCode := 148
  const Wake: VirtualKeyCode := 149
  const WebBack: VirtualKeyCode := 150
  const WebFavorites: VirtualKeyCode := 151
  const WebForward: VirtualKeyCode := 152
  const WebHome: VirtualKeyCode := 153
  const WebRefresh: VirtualKeyCode := 154
  const WebSearch: VirtualKeyCode := 155
  const WebStop: VirtualKeyCode := 156
  const Yen: VirtualKeyCode := 157
  const Copy: VirtualKeyCode := 158
  const Paste: VirtualKeyCode := 159
  const Cut: VirtualKeyCode := 160

  /** `KeyCode::from`. The first nine arms map `Key1`..`Key9` to `D1`..`D9`,
      the tenth maps `Key0` to `D0`, and every later arm maps a winit code to
      the engine code registered at the same position. */
  function KeyCodeOf(v: VirtualKeyCode): (k: Keys.KeyCode)
  {
    if v < Key0 then (v + 1) as int as Keys.KeyCode
    else if v == Key0 then Keys.D0
    else v as int as Keys.KeyCode
  }

  /** The conversion, arm by arm, as written in the match. */
  lemma ConversionTable()
    ensures
      KeyCodeOf(Key1) == Keys.D1
      && KeyCodeOf(Key2) == Keys.D2
      && KeyCodeOf(Key3) == Keys.D3
      && KeyCodeOf(Key4) == Keys.D4
      && KeyCodeOf(Key5) == Keys.D5
      && KeyCodeOf(Key6) == Keys.D6
      && KeyCodeOf(Key7) == Keys.D7
      && KeyCodeOf(Key8) == Keys.D8
      && KeyCodeOf(Key9) == Keys.D9
      && KeyCodeOf(Key0) == Keys.D0
      && KeyCodeOf(A) == Keys.A
      && KeyCodeOf(B) == Keys.B
      && KeyCodeOf(C) == Keys.C
      && KeyCodeOf(D) == Keys.D
      && KeyCodeOf(E) == Keys.E
      && KeyCodeOf(F) == Keys.F
      && KeyCodeOf(G) == Keys.G
      && KeyCodeOf(H) == Keys.H
      && KeyCodeOf(I) == Keys.I
      && KeyCodeOf(J) == Keys.J
      && KeyCodeOf(K) == Keys.K
      && KeyCodeOf(L) == Keys.L
      && KeyCodeOf(M) == Keys.M
      && KeyCodeOf(N) == Keys.N
      && KeyCodeOf(O) == Keys.O
      && KeyCodeOf(P) == Keys.P
      && KeyCodeOf(Q) == Keys.Q
      && KeyCodeOf(R) == Keys.R
      && KeyCodeOf(S) == Keys.S
      && KeyCodeOf(T) == Keys.T
      && KeyCodeOf(U) == Keys.U
      && KeyCodeOf(V) == Keys.V
      && KeyCodeOf(W) == Keys.W
      && KeyCodeOf(X) == Keys.X
      && KeyCodeOf(Y) == Keys.Y
      && KeyCodeOf(Z) == Keys.Z
      && KeyCodeOf(Escape) == Keys.Escape
      && KeyCodeOf(F1) == Keys.F1
      && KeyCodeOf(F2) == Keys.F2
      && KeyCodeOf(F3) == Keys.F3
      && KeyCodeOf(F4) == Keys.F4
      && KeyCodeOf(F5) == Keys.F5
      && KeyCodeOf(F6) == Keys.F6
      && KeyCodeOf(F7) == Keys.F7
      && KeyCodeOf(F8) == Keys.F8
      && KeyCodeOf(F9) == Keys.F9
      && KeyCodeOf(F10) == Keys.F10
      && KeyCodeOf(F11) == Keys.F11
      && KeyCodeOf(F12) == Keys.F12
      && KeyCodeOf(F13) == Keys.F13
      && KeyCodeOf(F14) == Keys.F14
      && KeyCodeOf(F15) == Keys.F15
      && KeyCodeOf(F16) == Keys.F16
      && KeyCodeOf(F17) == Keys.F17
      && KeyCodeOf(F18) == Keys.F18
      && KeyCodeOf(F19) == Keys.F19
      && KeyCodeOf(F20) == Keys.F20
      && KeyCodeOf(F21) == Keys.F21
      && KeyCodeOf(F22) == Keys.F22
      && KeyCodeOf(F23) == Keys.F23
      && KeyCodeOf(F24) == Keys.F24
      && KeyCodeOf(Snapshot) == Keys.PrintScreen
      && KeyCodeOf(Scroll) == Keys.ScrollLock
      && KeyCodeOf(Pause) == Keys.PauseBreak
      && KeyCodeOf(Insert) == Keys.Insert
      && KeyCodeOf(Home) == Keys.Home
      && KeyCodeOf(Delete) == Keys.Delete
      && KeyCodeOf(End) == Keys.End
      && KeyCodeOf(PageDown) == Keys.PageDown
      && KeyCodeOf(PageUp) == Keys.PageUp
      && KeyCodeOf(Left) == Keys.Left
      && KeyCodeOf(Up) == Keys.Up
      && KeyCodeOf(Right) == Keys.Right
      && KeyCodeOf(Down) == Keys.Down
      && KeyCodeOf(Back) == Keys.Backspace
      && KeyCodeOf(Return) == Keys.Return
      && KeyCodeOf(Space) == Keys.Space
      && KeyCodeOf(Compose) == Keys.Compose
      && KeyCodeOf(Caret) == Keys.Caret
      && KeyCodeOf(Numlock) == Keys.Numlock
      && KeyCodeOf(Numpad0) == Keys.Numpad0
      && KeyCodeOf(Numpad1) == Keys.Numpad1
      && KeyCodeOf(Numpad2) == Keys.Numpad2
      && KeyCodeOf(Numpad3) == Keys.Numpad3
      && KeyCodeOf(Numpad4) == Keys.Numpad4
      && KeyCodeOf(Numpad5) == Keys.Numpad5
      && KeyCodeOf(Numpad6) == Keys.Numpad6
      && KeyCodeOf(Numpad7) == Keys.Numpad7
      && KeyCodeOf(Numpad8) == Keys.Numpad8
      && KeyCodeOf(Numpad9) == Keys.Numpad9
      && KeyCodeOf(AbntC1) == Keys.AbntC1
      && KeyCodeOf(AbntC2) == Keys.AbntC2
      && KeyCodeOf(Add) == Keys.Add
      && KeyCodeOf(Apostrophe) == Keys.Apostrophe
      && KeyCodeOf(Apps) == Keys.Apps
      && KeyCodeOf(At) == Keys.At
      && KeyCodeOf(Ax) == Keys.Ax
      && KeyCodeOf(Backslash) == Keys.Backslash
      && KeyCodeOf(Calculator) == Keys.Calculator
      && KeyCodeOf(Capital) == Keys.Capital
      && KeyCodeOf(Colon) == Keys.Colon
      && KeyCodeOf(Comma) == Keys.Comma
      && KeyCodeOf(Convert) == Keys.Convert
      && KeyCodeOf(Decimal) == Keys.Decimal
      && KeyCodeOf(Divide) == Keys.Divide
      && KeyCodeOf(Equals) == Keys.Equals
      && KeyCodeOf(Grave) == Keys.Grave
      && KeyCodeOf(Kana) == Keys.Kana
      && KeyCodeOf(Kanji) == Keys.Kanji
      && KeyCodeOf(LAlt) == Keys.LeftAlt
      && KeyCodeOf(LBracket) == Keys.LeftBracket
      && KeyCodeOf(LControl) == Keys.LeftControl
      && KeyCodeOf(LShift) == Keys.LeftShift
      && KeyCodeOf(LWin) == Keys.LeftCommand
      && KeyCodeOf(Mail) == Keys.Mail
      && KeyCodeOf(MediaSelect) == Keys.MediaSelect
      && KeyCodeOf(MediaStop) == Keys.MediaStop
      && KeyCodeOf(Minus) == Keys.Minus
      && KeyCodeOf(Multiply) == Keys.Multiply
      && KeyCodeOf(Mute) == Keys.Mute
      && KeyCodeOf(MyComputer) == Keys.MyComputer
      && KeyCodeOf(NavigateForward) == Keys.NavigateForward
      && KeyCodeOf(NavigateBackward) == Keys.NavigateBackward
      && KeyCodeOf(NextTrack) == Keys.NextTrack
      && KeyCodeOf(NoConvert) == Keys.NoConvert
      && KeyCodeOf(NumpadComma) == Keys.NumpadComma
      && KeyCodeOf(NumpadEnter) == Keys.NumpadEnter
      && KeyCodeOf(NumpadEquals) == Keys.NumpadEquals
      && KeyCodeOf(OEM102) == Keys.OEM102
      && KeyCodeOf(Period) == Keys.Period
      && KeyCodeOf(PlayPause) == Keys.PlayPause
      && KeyCodeOf(Power) == Keys.Power
      && KeyCodeOf(PrevTrack) == Keys.PrevTrack
      && KeyCodeOf(RAlt) == Keys.RightAlt
      && KeyCodeOf(RBracket) == Keys.RightBracket
      && KeyCodeOf(RControl) == Keys.RightControl
      && KeyCodeOf(RShift) == Keys.RightShift
      && KeyCodeOf(RWin) == Keys.RightCommand
      && KeyCodeOf(Semicolon) == Keys.Semicolon
      && KeyCodeOf(Slash) == Keys.Slash
      && KeyCodeOf(Sleep) == Keys.Sleep
      && KeyCodeOf(Stop) == Keys.Stop
      && KeyCodeOf(Subtract) == Keys.Subtract
      && KeyCodeOf(Sysrq) == Keys.Sysrq
      && KeyCodeOf(Tab) == Keys.Tab
      && KeyCodeOf(Underline) == Keys.Underline
      && KeyCodeOf(Unlabeled) == Keys.Unlabeled
      && KeyCodeOf(VolumeDown) == Keys.VolumeDown
      && KeyCodeOf(VolumeUp) == Keys.VolumeUp
      && KeyCodeOf(Wake) == Keys.Wake
      && KeyCodeOf(WebBack) == Keys.WebBack
      && KeyCodeOf(WebFavorites) == Keys.WebFavorites
      && KeyCodeOf(WebForward) == Keys.WebForward
      && KeyCodeOf(WebHome) == Keys.WebHome
      && KeyCodeOf(WebRefresh) == Keys.WebRefresh
      && KeyCodeOf(WebSearch) == Keys.WebSearch
      && KeyCodeOf(WebStop) == Keys.WebStop
      && KeyCodeOf(Yen) == Keys.Yen
      && KeyCodeOf(Copy) == Keys.Copy
      && KeyCodeOf(Paste) == Keys.Paste
      && KeyCodeOf(Cut) == Keys.Cut
  {
  }

  /** `KeyCode::from` never sends two winit codes to the same engine code. */
  lemma KeyCodeOfInjective(a: VirtualKeyCode, b: VirtualKeyCode)
    ensures KeyCodeOf(a) == KeyCodeOf(b) ==> a == b
  {
  }

  /** Every engine key code is the image of some winit code, so the
      conversion is a bijection onto the codes `Input::new` registers. */
  lemma KeyCodeOfOnto(k: Keys.KeyCode)
    ensures exists v :: KeyCodeOf(v) == k
  {
    if k == Keys.D0 {
      assert KeyCodeOf(Key0) == k;
    } else if k <= Keys.D9 {
      assert KeyCodeOf((k - 1) as int as VirtualKeyCode) == k;
    } else {
      assert KeyCodeOf(k as int as VirtualKeyCode) == k;
    }
  }

  datatype ControlFlow = Poll | Exit

  /** The part of a winit window event the closure looks at. */
  datatype WinitWindowEvent = CloseRequested | OtherWindowEvent
  datatype WinitEvent = WindowEvent(event: WinitWindowEvent) | OtherEvent

  /** One call of the event-loop closure. `gameState` is the upgraded weak
      reference, None once the game state is gone. A close request closes
      the game; the loop keeps polling while the game runs and exits
      otherwise. */
  method RunStep(gameState: Option<GameStates.GameState>, event: WinitEvent) returns (flow: ControlFlow)
    modifies if gameState.Some? then {gameState.value} else {}
    ensures flow == Exit <==> gameState.None? || !gameState.value.isRunning
    ensures gameState.Some? ==>
      (gameState.value.isRunning <==> old(gameState.value.isRunning) && event != WindowEvent(CloseRequested))
  {
    flow := Poll;
    match gameState {
      case Some(state) =>
        if event == WindowEvent(CloseRequested) {
          state.CloseGame();
        }
        if !state.IsRunning() {
          flow := Exit;
        }
      case None =>
        flow := Exit;
    }
  }
}
