/** The 256-entry translation table from the debug keyboard's virtual-key codes
    to SDL key symbols, built by a sequence of assignments over an all-zero
    table in which a later assignment to the same code overrides an earlier one. */
module XboxKeymap {

  import opened Common

  /** Number of entries in the table, one per 8-bit virtual-key code. */
  const TableSize: nat := 256

  // Virtual-key codes of the console's debug keyboard (the Win32 VK_ values).
  const VK_BACK: int := 0x08
  const VK_TAB: int := 0x09
  const VK_RETURN: int := 0x0D
  const VK_PAUSE: int := 0x13
  const VK_CAPITAL: int := 0x14
  const VK_ESCAPE: int := 0x1B
  const VK_SPACE: int := 0x20
  const VK_PRIOR: int := 0x21
  const VK_NEXT: int := 0x22
  const VK_END: int := 0x23
  const VK_HOME: int := 0x24
  const VK_LEFT: int := 0x25
  const VK_UP: int := 0x26
  const VK_RIGHT: int := 0x27
  const VK_DOWN: int := 0x28
  const VK_INSERT: int := 0x2D
  const VK_DELETE: int := 0x2E
  const VK_LWIN: int := 0x5B
  const VK_RWIN: int := 0x5C
  const VK_APPS: int := 0x5D
  const VK_NUMPAD0: int := 0x60
  const VK_NUMPAD1: int := 0x61
  const VK_NUMPAD2: int := 0x62
  const VK_NUMPAD3: int := 0x63
  const VK_NUMPAD4: int := 0x64
  const VK_NUMPAD5: int := 0x65
  const VK_NUMPAD6: int := 0x66
  const VK_NUMPAD7: int := 0x67
  const VK_NUMPAD8: int := 0x68
  const VK_NUMPAD9: int := 0x69
  const VK_MULTIPLY: int := 0x6A
  const VK_ADD: int := 0x6B
  const VK_SUBTRACT: int := 0x6D
  const VK_DECIMAL: int := 0x6E
  const VK_DIVIDE: int := 0x6F
  const VK_F1: int := 0x70
  const VK_F2: int := 0x71
  const VK_F3: int := 0x72
  const VK_F4: int := 0x73
  const VK_F5: int := 0x74
  const VK_F6: int := 0x75
  const VK_F7: int := 0x76
  const VK_F8: int := 0x77
  const VK_F9: int := 0x78
  const VK_F10: int := 0x79
  const VK_F11: int := 0x7A
  const VK_F12: int := 0x7B
  const VK_F13: int := 0x7C
  const VK_F14: int := 0x7D
  const VK_F15: int := 0x7E
  const VK_NUMLOCK: int := 0x90
  const VK_SCROLL: int := 0x91
  const VK_LSHIFT: int := 0xA0
  const VK_RSHIFT: int := 0xA1
  const VK_LCONTROL: int := 0xA2
  const VK_RCONTROL: int := 0xA3
  const VK_LMENU: int := 0xA4
  const VK_RMENU: int := 0xA5
  const VK_OEM_1: int := 0xBA
  const VK_OEM_PLUS: int := 0xBB
  const VK_OEM_COMMA: int := 0xBC
  const VK_OEM_MINUS: int := 0xBD
  const VK_OEM_PERIOD: int := 0xBE
  const VK_OEM_3: int := 0xC0
  const VK_OEM_7: int := 0xDE
  // The driver's own aliases for punctuation keys.
  const VK_bracketleft: int := 0xDB
  const VK_bracketright: int := 0xDD
  const VK_slash: int := 0xBF
  const VK_equal: int := 0xBB
  const VK_backslash: int := 0xDC

  // SDL key symbols (SDL 1.2 numbering).
  const SDLK_BACKSPACE: int := 8
  const SDLK_TAB: int := 9
  const SDLK_RETURN: int := 13
  const SDLK_PAUSE: int := 19
  const SDLK_ESCAPE: int := 27
  const SDLK_SPACE: int := 32
  const SDLK_QUOTE: int := 39
  const SDLK_PLUS: int := 43
  const SDLK_COMMA: int := 44
  const SDLK_MINUS: int := 45
  const SDLK_PERIOD: int := 46
  const SDLK_SLASH: int := 47
  const SDLK_SEMICOLON: int := 59
  const SDLK_EQUALS: int := 61
  const SDLK_LEFTBRACKET: int := 91
  const SDLK_BACKSLASH: int := 92
  const SDLK_RIGHTBRACKET: int := 93
  const SDLK_BACKQUOTE: int := 96
  const SDLK_DELETE: int := 127
  const SDLK_KP0: int := 256
  const SDLK_KP1: int := 257
  const SDLK_KP2: int := 258
  const SDLK_KP3: int := 259
  const SDLK_KP4: int := 260
  const SDLK_KP5: int := 261
  const SDLK_KP6: int := 262
  const SDLK_KP7: int := 263
  const SDLK_KP8: int := 264
  const SDLK_KP9: int := 265
  const SDLK_KP_PERIOD: int := 266
  const SDLK_KP_DIVIDE: int := 267
  const SDLK_KP_MULTIPLY: int := 268
  const SDLK_KP_MINUS: int := 269
  const SDLK_KP_PLUS: int := 270
  const SDLK_UP: int := 273
  const SDLK_DOWN: int := 274
  const SDLK_RIGHT: int := 275
  const SDLK_LEFT: int := 276
  const SDLK_INSERT: int := 277
  const SDLK_HOME: int := 278
  const SDLK_END: int := 279
  const SDLK_PAGEUP: int := 280
  const SDLK_PAGEDOWN: int := 281
  const SDLK_F1: int := 282
  const SDLK_F2: int := 283
  const SDLK_F3: int := 284
  const SDLK_F4: int := 285
  const SDLK_F5: int := 286
  const SDLK_F6: int := 287
  const SDLK_F7: int := 288
  const SDLK_F8: int := 289
  const SDLK_F9: int := 290
  const SDLK_F10: int := 291
  const SDLK_F11: int := 292
  const SDLK_F12: int := 293
  const SDLK_F13: int := 294
  const SDLK_F14: int := 295
  const SDLK_F15: int := 296
  const SDLK_NUMLOCK: int := 300
  const SDLK_CAPSLOCK: int := 301
  const SDLK_SCROLLOCK: int := 302
  const SDLK_RSHIFT: int := 303
  const SDLK_LSHIFT: int := 304
  const SDLK_RCTRL: int := 305
  const SDLK_LCTRL: int := 306
  const SDLK_RALT: int := 307
  const SDLK_LALT: int := 308
  const SDLK_RMETA: int := 309
  const SDLK_LMETA: int := 310
  const SDLK_MENU: int := 319

  /** Digit and letter keys share their code with the character: the key
      symbol of a digit is the digit, of a letter the lower-case letter. */
  function Char(c: char): int { c as int }

  /** One assignment `keymap[vk] = sym` of the table initialisation. */
  datatype Assignment = Assignment(vk: u8, sym: int)

  /** The assignments of the table initialisation, in the order they are made. */
  const Assignments: seq<Assignment> := [
    Assignment(VK_ESCAPE, SDLK_ESCAPE),
    Assignment(Char('1'), Char('1')), Assignment(Char('2'), Char('2')),
    Assignment(Char('3'), Char('3')), Assignment(Char('4'), Char('4')),
    Assignment(Char('5'), Char('5')), Assignment(Char('6'), Char('6')),
    Assignment(Char('7'), Char('7')), Assignment(Char('8'), Char('8')),
    Assignment(Char('9'), Char('9')), Assignment(Char('0'), Char('0')),
    Assignment(VK_SUBTRACT, SDLK_MINUS),
    Assignment(VK_equal, SDLK_EQUALS),
    Assignment(VK_BACK, SDLK_BACKSPACE),
    Assignment(VK_TAB, SDLK_TAB),
    Assignment(Char('Q'), Char('q')), Assignment(Char('W'), Char('w')),
    Assignment(Char('E'), Char('e')), Assignment(Char('R'), Char('r')),
    Assignment(Char('T'), Char('t')), Assignment(Char('Y'), Char('y')),
    Assignment(Char('U'), Char('u')), Assignment(Char('I'), Char('i')),
    Assignment(Char('O'), Char('o')), Assignment(Char('P'), Char('p')),
    Assignment(VK_bracketleft, SDLK_LEFTBRACKET),
    Assignment(VK_bracketright, SDLK_RIGHTBRACKET),
    Assignment(VK_RETURN, SDLK_RETURN),
    Assignment(VK_LCONTROL, SDLK_LCTRL),
    Assignment(Char('A'), Char('a')), Assignment(Char('S'), Char('s')),
    Assignment(Char('D'), Char('d')), Assignment(Char('F'), Char('f')),
    Assignment(Char('G'), Char('g')), Assignment(Char('H'), Char('h')),
    Assignment(Char('J'), Char('j')), Assignment(Char('K'), Char('k')),
    Assignment(Char('L'), Char('l')),
    Assignment(VK_OEM_1, SDLK_SEMICOLON),
    Assignment(VK_OEM_7, SDLK_QUOTE),
    Assignment(VK_OEM_3, SDLK_BACKQUOTE),
    Assignment(VK_LSHIFT, SDLK_LSHIFT),
    Assignment(VK_backslash, SDLK_BACKSLASH),
    Assignment(Char('Z'), Char('z')), Assignment(Char('X'), Char('x')),
    Assignment(Char('C'), Char('c')), Assignment(Char('V'), Char('v')),
    Assignment(Char('B'), Char('b')), Assignment(Char('N'), Char('n')),
    Assignment(Char('M'), Char('m')),
    Assignment(VK_OEM_COMMA, SDLK_COMMA),
    Assignment(VK_OEM_PERIOD, SDLK_PERIOD),
    Assignment(VK_OEM_PLUS, SDLK_PLUS),
    Assignment(VK_OEM_MINUS, SDLK_MINUS),
    Assignment(VK_slash, SDLK_SLASH),
    Assignment(VK_RSHIFT, SDLK_RSHIFT),
    Assignment(VK_MULTIPLY, SDLK_KP_MULTIPLY),
    Assignment(VK_LMENU, SDLK_LALT),
    Assignment(VK_SPACE, SDLK_SPACE),
    Assignment(VK_CAPITAL, SDLK_CAPSLOCK),
    Assignment(VK_F1, SDLK_F1), Assignment(VK_F2, SDLK_F2),
    Assignment(VK_F3, SDLK_F3), Assignment(VK_F4, SDLK_F4),
    Assignment(VK_F5, SDLK_F5), Assignment(VK_F6, SDLK_F6),
    Assignment(VK_F7, SDLK_F7), Assignment(VK_F8, SDLK_F8),
    Assignment(VK_F9, SDLK_F9), Assignment(VK_F10, SDLK_F10),
    Assignment(VK_NUMLOCK, SDLK_NUMLOCK),
    Assignment(VK_SCROLL, SDLK_SCROLLOCK),
    Assignment(VK_NUMPAD7, SDLK_KP7),
    Assignment(VK_NUMPAD8, SDLK_KP8),
    Assignment(VK_NUMPAD9, SDLK_KP9),
    Assignment(VK_ADD, SDLK_KP_PLUS),
    Assignment(VK_SUBTRACT, SDLK_KP_MINUS),
    Assignment(VK_NUMPAD4, SDLK_KP4),
    Assignment(VK_NUMPAD5, SDLK_KP5),
    Assignment(VK_NUMPAD6, SDLK_KP6),
    Assignment(VK_NUMPAD1, SDLK_KP1),
    Assignment(VK_NUMPAD2, SDLK_KP2),
    Assignment(VK_NUMPAD3, SDLK_KP3),
    Assignment(VK_NUMPAD0, SDLK_KP0),
    Assignment(VK_DECIMAL, SDLK_KP_PERIOD),
    Assignment(VK_F11, SDLK_F11),
    Assignment(VK_F12, SDLK_F12),
    Assignment(VK_F13, SDLK_F13),
    Assignment(VK_F14, SDLK_F14),
    Assignment(VK_F15, SDLK_F15),
    Assignment(VK_equal, SDLK_EQUALS),
    Assignment(VK_RCONTROL, SDLK_RCTRL),
    Assignment(VK_DIVIDE, SDLK_KP_DIVIDE),
    Assignment(VK_RMENU, SDLK_RALT),
    Assignment(VK_PAUSE, SDLK_PAUSE),
    Assignment(VK_HOME, SDLK_HOME),
    Assignment(VK_UP, SDLK_UP),
    Assignment(VK_PRIOR, SDLK_PAGEUP),
    Assignment(VK_LEFT, SDLK_LEFT),
    Assignment(VK_RIGHT, SDLK_RIGHT),
    Assignment(VK_END, SDLK_END),
    Assignment(VK_DOWN, SDLK_DOWN),
    Assignment(VK_NEXT, SDLK_PAGEDOWN),
    Assignment(VK_INSERT, SDLK_INSERT),
    Assignment(VK_DELETE, SDLK_DELETE),
    Assignment(VK_LWIN, SDLK_LMETA),
    Assignment(VK_RWIN, SDLK_RMETA),
    Assignment(VK_APPS, SDLK_MENU)
  ]

  /** Performs the assignments `a` on `table`, first to last. */
  function Apply(table: seq<int>, a: seq<Assignment>): (r: seq<int>)
    requires |table| == TableSize
    ensures |r| == |table|
    decreases |a|
  {
    if |a| == 0 then table else Apply(table[a[0].vk := a[0].sym], a[1..])
  }

  /** An assignment that no later assignment to the same code follows decides the entry. */
  lemma {:induction false} LastWriteWins(table: seq<int>, a: seq<Assignment>, i: nat)
    requires |table| == TableSize
    requires i < |a|
    requires forall j :: i < j < |a| ==> a[j].vk != a[i].vk
    ensures Apply(table, a)[a[i].vk] == a[i].sym
    decreases |a|
  {
    var t' := table[a[0].vk := a[0].sym];
    if i == 0 {
      UnassignedKept(t', a[1..], a[0].vk);
    } else {
      LastWriteWins(t', a[1..], i - 1);
    }
  }

  /** A code that no assignment mentions keeps the entry it had. */
  lemma {:induction false} UnassignedKept(table: seq<int>, a: seq<Assignment>, vk: int)
    requires |table| == TableSize
    requires 0 <= vk < |table|
    requires forall j :: 0 <= j < |a| ==> a[j].vk != vk
    ensures Apply(table, a)[vk] == table[vk]
    decreases |a|
  {
    if |a| != 0 {
      UnassignedKept(table[a[0].vk := a[0].sym], a[1..], vk);
    }
  }

  /** The table after initialisation: all zero, then the assignments in order. */
  function InitKeymap(): (k: seq<int>)
    ensures |k| == TableSize
  {
    Apply(seq(TableSize, _ => 0), Assignments)
  }

  /** Every entry that no assignment names is 0 after initialisation. */
  lemma UnassignedIsZero(vk: int)
    requires 0 <= vk < TableSize
    requires forall j :: 0 <= j < |Assignments| ==> Assignments[j].vk != vk
    ensures InitKeymap()[vk] == 0
  {
    UnassignedKept(seq(TableSize, _ => 0), Assignments, vk);
  }

  /** Every entry that some assignment names holds the symbol of the last such assignment. */
  lemma AssignedIsLast(i: nat)
    requires i < |Assignments|
    requires forall j :: i < j < |Assignments| ==> Assignments[j].vk != Assignments[i].vk
    ensures InitKeymap()[Assignments[i].vk] == Assignments[i].sym
  {
    LastWriteWins(seq(TableSize, _ => 0), Assignments, i);
  }

  /** The keypad minus assignment overrides the earlier main-row minus one. */
  lemma SubtractIsKeypadMinus()
    ensures InitKeymap()[VK_SUBTRACT] == SDLK_KP_MINUS
  {
    assert Assignments[76] == Assignment(VK_SUBTRACT, SDLK_KP_MINUS);
    AssignedIsLast(76);
  }

  /** The shared '='/'+' code is written three times and ends as '='. */
  lemma EqualOverridesPlus()
    ensures InitKeymap()[VK_OEM_PLUS] == SDLK_EQUALS
  {
    assert Assignments[90] == Assignment(VK_equal, SDLK_EQUALS);
    AssignedIsLast(90);
  }
}
