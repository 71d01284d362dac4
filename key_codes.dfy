/** The engine's keyboard key codes. The declaration of the `KeyCode` enum
    is not part of this model; its variants here are exactly the 161 codes
    `Input::new` registers, numbered in the order of its `keys.insert`
    calls (src/input/input.rs:126-286), so the registration order is the
    numeric order. */
module KeyCodes {
  newtype KeyCode = k: int | 0 <= k < Count

  /** The number of codes, and the capacity `Input::new` reserves. */
  const Count := 161

  const D0: KeyCode := 0
  const D1: KeyCode := 1
  const D2: KeyCode := 2
  const D3: KeyCode := 3
  const D4: KeyCode := 4
  const D5: KeyCode := 5
  const D6: KeyCode := 6
  const D7: KeyCode := 7
  const D8: KeyCode := 8
  const D9: KeyCode := 9
  const A: KeyCode := 10
  const B: KeyCode := 11
  const C: KeyCode := 12
  const D: KeyCode := 13
  const E: KeyCode := 14
  const F: KeyCode := 15
  const G: KeyCode := 16
  const H: KeyCode := 17
  const I: KeyCode := 18
  const J: KeyCode := 19
  const K: KeyCode := 20
  const L: KeyCode := 21
  const M: KeyCode := 22
  const N: KeyCode := 23
  const O: KeyCode := 24
  const P: KeyCode := 25
  const Q: KeyCode := 26
  const R: KeyCode := 27
  const S: KeyCode := 28
  const T: KeyCode := 29
  const U: KeyCode := 30
  const V: KeyCode := 31
  const W: KeyCode := 32
  const X: KeyCode := 33
  const Y: KeyCode := 34
  const Z: KeyCode := 35
  const Escape: KeyCode := 36
  const F1: KeyCode := 37
  const F2: KeyCode := 38
  const F3: KeyCode := 39
  const F4: KeyCode := 40
  const F5: KeyCode := 41
  const F6: KeyCode := 42
  const F7: KeyCode := 43
  const F8: KeyCode := 44
  const F9: KeyCode := 45
  const F10: KeyCode := 46
  const F11: KeyCode := 47
  const F12: KeyCode := 48
  const F13: KeyCode := 49
  const F14: KeyCode := 50
  const F15: KeyCode := 51
  const F16: KeyCode := 52
  const F17: KeyCode := 53
  const F18: KeyCode := 54
  const F19: KeyCode := 55
  const F20: KeyCode := 56
  const F21: KeyCode := 57
  const F22: KeyCode := 58
  const F23: KeyCode := 59
  const F24: KeyCode := 60
  const PrintScreen: KeyCode := 61
  const ScrollLock: KeyCode := 62
  const PauseBreak: KeyCode := 63
  const Insert: KeyCode := 64
  const Home: KeyCode := 65
  const Delete: KeyCode := 66
  const End: KeyCode := 67
  const PageDown: KeyCode := 68
  const PageUp: KeyCode := 69
  const Left: KeyCode := 70
  const Up: KeyCode := 71
  const Right: KeyCode := 72
  const Down: KeyCode := 73
  const Backspace: KeyCode := 74
  const Return: KeyCode := 75
  const Space: KeyCode := 76
  const Compose: KeyCode := 77
  const Caret: KeyCode := 78
  const Numlock: KeyCode := 79
  const Numpad0: KeyCode := 80
  const Numpad1: KeyCode := 81
  const Numpad2: KeyCode := 82
  const Numpad3: KeyCode := 83
  const Numpad4: KeyCode := 84
  const Numpad5: KeyCode := 85
  const Numpad6: KeyCode := 86
  const Numpad7: KeyCode := 87
  const Numpad8: KeyCode := 88
  const Numpad9: KeyCode := 89
  const AbntC1: KeyCode := 90
  const AbntC2: KeyCode := 91
  const Add: KeyCode := 92
  const Apostrophe: KeyCode := 93
  const Apps: KeyCode := 94
  const At: KeyCode := 95
  const Ax: KeyCode := 96
  const Backslash: KeyCode := 97
  const Calculator: KeyCode := 98
  const Capital: KeyCode := 99
  const Colon: KeyCode := 100
  const Comma: KeyCode := 101
  const Convert: KeyCode := 102
  const Decimal: KeyCode := 103
  const Divide: KeyCode := 104
  const Equals: KeyCode := 105
  const Grave: KeyCode := 106
  const Kana: KeyCode := 107
  const Kanji: KeyCode := 108
  const LeftAlt: KeyCode := 109
  const LeftBracket: KeyCode := 110
  const LeftControl: KeyCode := 111
  const LeftShift: KeyCode := 112
  const LeftCommand: KeyCode := 113
  const Mail: KeyCode := 114
  const MediaSelect: KeyCode := 115
  const MediaStop: KeyCode := 116
  const Minus: KeyCode := 117
  const Multiply: KeyCode := 118
  const Mute: KeyCode := 119
  const MyComputer: KeyCode := 120
  const NavigateForward: KeyCode := 121
  const NavigateBackward: KeyCode := 122
  const NextTrack: KeyCode := 123
  const NoConvert: KeyCode := 124
  const NumpadComma: KeyCode := 125
  const NumpadEnter: KeyCode := 126
  const NumpadEquals: KeyCode := 127
  const OEM102: KeyCode := 128
  const Period: KeyCode := 129
  const PlayPause: KeyCode := 130
  const Power: KeyCode := 131
  const PrevTrack: KeyCode := 132
  const RightAlt: KeyCode := 133
  const RightBracket: KeyCode := 134
  const RightControl: KeyCode := 135
  const RightShift: KeyCode := 136
  const RightCommand: KeyCode := 137
  const Semicolon: KeyCode := 138
  const Slash: KeyCode := 139
  const Sleep: KeyCode := 140
  const Stop: KeyCode := 141
  const Subtract: KeyCode := 142
  const Sysrq: KeyCode := 143
  const Tab: KeyCode := 144
  const Underline: KeyCode := 145
  const Unlabeled: KeyCode := 146
  const VolumeDown: KeyCode := 147
  const VolumeUp: KeyCode := 148
  const Wake: KeyCode := 149
  const WebBack: KeyCode := 150
  const WebFavorites: KeyCode := 151
  const WebForward: KeyCode := 152
  const WebHome: KeyCode := 153
  const WebRefresh: KeyCode := 154
  const WebSearch: KeyCode := 155
  const WebStop: KeyCode := 156
  const Yen: KeyCode := 157
  const Copy: KeyCode := 158
  const Paste: KeyCode := 159
  const Cut: KeyCode := 160
}
