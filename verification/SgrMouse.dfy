// The xterm SGR (mode 1006) mouse encoding and its decoder.
module SgrMouse {
  import opened Prelude
  import opened Decimal

  datatype MouseButton = Left | Right | Middle

  datatype MouseEventKind =
    | Down(button: MouseButton)
    | Up(button: MouseButton)
    | Drag(button: MouseButton)
    | Moved
    | ScrollUp
    | ScrollDown
    | ScrollLeft
    | ScrollRight

  datatype Modifiers = Modifiers(shift: bool, alt: bool, control: bool)

  datatype MouseEvent = MouseEvent(kind: MouseEventKind, column: nat, row: nat, modifiers: Modifiers)

  const U16_MAX: nat := 0xffff

  /** Bit `weight` of a byte; weights are powers of two. */
  predicate Bit(value: nat, weight: nat)
    requires weight > 0
  {
    (value / weight) % 2 == 1
  }

  function SgrMouseKind(cb: nat): Option<MouseEventKind>
    requires cb < 256
  {
    if Bit(cb, 64) then
      (match cb % 4
       case 0 => Some(ScrollUp)
       case 1 => Some(ScrollDown)
       case 2 => Some(ScrollLeft)
       case _ => Some(ScrollRight))
    else
      var button := cb % 4 + 4 * (cb / 64);
      if Bit(cb, 32) then
        if button == 0 then Some(Drag(Left))
        else if button == 1 then Some(Drag(Middle))
        else if button == 2 then Some(Drag(Right))
        else if button <= 5 then Some(Moved)
        else None
      else if button == 0 then Some(Down(Left))
      else if button == 1 then Some(Down(Middle))
      else if button == 2 then Some(Down(Right))
      else if button == 3 then Some(Up(Left))
      else if button == 4 then Some(ScrollUp)
      else if button == 5 then Some(ScrollDown)
      else if button == 6 then Some(ScrollLeft)
      else if button == 7 then Some(ScrollRight)
      else None
  }

  /** `str::split(';')`. */
  function SplitFields(text: string): (fields: seq<string>)
    ensures |fields| > 0
  {
    if text == "" then [""]
    else if text[0] == ';' then [""] + SplitFields(text[1..])
    else
      var rest := SplitFields(text[1..]);
      [[text[0]] + rest[0]] + rest[1..]
  }

  predicate EndsSequence(c: char) {
    c == 'M' || c == 'm'
  }

  function ParseSgrMouseFragment(fragment: string): Option<MouseEvent> {
    if |fragment| < 3 || fragment[..2] != "[<" || !EndsSequence(fragment[|fragment| - 1]) then None
    else
      var released := fragment[|fragment| - 1] == 'm';
      var fields := SplitFields(fragment[2..|fragment| - 1]);
      if |fields| != 3 then None
      else
        match (ParseUnsigned(fields[0], U16_MAX), ParseUnsigned(fields[1], U16_MAX), ParseUnsigned(fields[2], U16_MAX))
        case (Some(cb), Some(column), Some(row)) =>
          if cb > 255 then None
          else
            (match SgrMouseKind(cb)
             case None => None
             case Some(pressed) =>
               var kind := if released && pressed.Down? then Up(pressed.button) else pressed;
               if column == 0 || row == 0 then None
               else Some(MouseEvent(kind, column - 1, row - 1, Modifiers(Bit(cb, 4), Bit(cb, 8), Bit(cb, 16)))))
        case _ => None
  }

  predicate IsSgrMousePrefix(fragment: string) {
    if |fragment| > 32 then false
    else if |fragment| == 0 then true
    else if |fragment| == 1 then fragment == "["
    else fragment[..2] == "[<" && forall i :: 2 <= i < |fragment| ==> IsDigit(fragment[i]) || fragment[i] == ';'
  }

  // The encoding, as "Extended coordinates" in xterm Control Sequences describes it

  function ButtonCode(button: MouseButton): nat {
    match button
    case Left => 0
    case Middle => 1
    case Right => 2
  }

  /** The low two bits name the button or the wheel direction. */
  function LowCode(kind: MouseEventKind): (code: nat)
    ensures code < 4
  {
    match kind
    case Down(button) => ButtonCode(button)
    case Up(button) => ButtonCode(button)
    case Drag(button) => ButtonCode(button)
    case Moved => 3
    case ScrollUp => 0
    case ScrollDown => 1
    case ScrollLeft => 2
    case ScrollRight => 3
  }

  /** Motion adds 32 and the wheel adds 64. */
  function HighCode(kind: MouseEventKind): (code: nat)
    ensures code <= 2
  {
    if kind.Drag? || kind.Moved? then 1 else if kind.Down? || kind.Up? then 0 else 2
  }

  function KindCode(kind: MouseEventKind): nat {
    32 * HighCode(kind) + LowCode(kind)
  }

  function ModifierCode(modifiers: Modifiers): (code: nat)
    ensures code in {0, 4, 8, 12, 16, 20, 24, 28}
    ensures Bit(code, 4) == modifiers.shift && Bit(code, 8) == modifiers.alt && Bit(code, 16) == modifiers.control
  {
    (if modifiers.shift then 4 else 0) + (if modifiers.alt then 8 else 0) + (if modifiers.control then 16 else 0)
  }

  predicate Encodable(event: MouseEvent) {
    event.column < U16_MAX && event.row < U16_MAX
  }

  /** The characters after the Escape. */
  function Encode(event: MouseEvent): (text: string)
    ensures |text| > 2
  {
    "[<" + Digits(KindCode(event.kind) + ModifierCode(event.modifiers)) + ";" +
    Digits(event.column + 1) + ";" + Digits(event.row + 1) + (if event.kind.Up? then "m" else "M")
  }

  lemma {:induction false} SplitFieldsOfDigits(digits: string)
    requires AllDigits(digits)
    ensures SplitFields(digits) == [digits]
  {
    if digits != "" {
      assert IsDigit(digits[0]);
      SplitFieldsOfDigits(digits[1..]);
      assert [digits[0]] + digits[1..] == digits;
    }
  }

  lemma {:induction false} SplitFieldsAt(digits: string, rest: string)
    requires AllDigits(digits)
    ensures SplitFields(digits + ";" + rest) == [digits] + SplitFields(rest)
  {
    var text := digits + ";" + rest;
    if digits == "" {
      assert text[1..] == rest;
    } else {
      assert IsDigit(digits[0]) && text[0] == digits[0];
      assert text[1..] == digits[1..] + ";" + rest;
      SplitFieldsAt(digits[1..], rest);
      assert [digits[0]] + digits[1..] == digits;
      assert ([digits[1..]] + SplitFields(rest))[1..] == SplitFields(rest);
    }
  }

  /** The byte 32q + r + m has the low bits r, the modifier bits of m and the high bits of q. */
  lemma {:induction false} ByteLayout(q: nat, r: nat, m: nat)
    requires q <= 2 && r < 4
    requires m in {0, 4, 8, 12, 16, 20, 24, 28}
    ensures var cb := 32 * q + r + m;
            && cb < 256 && cb % 4 == r && cb / 64 == q / 2
            && (Bit(cb, 32) <==> q == 1) && (Bit(cb, 64) <==> q == 2)
            && Bit(cb, 4) == Bit(m, 4) && Bit(cb, 8) == Bit(m, 8) && Bit(cb, 16) == Bit(m, 16)
  {
  }

  lemma {:induction false} KindDecodes(kind: MouseEventKind, cb: nat)
    requires cb < 256 && cb % 4 == LowCode(kind) && cb / 64 == HighCode(kind) / 2
    requires (Bit(cb, 32) <==> HighCode(kind) == 1) && (Bit(cb, 64) <==> HighCode(kind) == 2)
    ensures SgrMouseKind(cb) == Some(if kind.Up? then Down(kind.button) else kind)
  {
    hide Bit;
  }

  /** The button byte decodes to the kind and the modifiers it was made from. */
  lemma {:induction false} ButtonByteDecodes(kind: MouseEventKind, modifiers: Modifiers)
    ensures var cb := KindCode(kind) + ModifierCode(modifiers);
            && cb < 256
            && SgrMouseKind(cb) == Some(if kind.Up? then Down(kind.button) else kind)
            && Modifiers(Bit(cb, 4), Bit(cb, 8), Bit(cb, 16)) == modifiers
  {
    var m := ModifierCode(modifiers);
    ByteLayout(HighCode(kind), LowCode(kind), m);
    KindDecodes(kind, KindCode(kind) + m);
    hide SgrMouseKind;
    hide Bit;
  }

  /** The three fields between the brackets and the final letter. */
  lemma {:induction false} EncodedFields(event: MouseEvent)
    ensures var text := Encode(event);
            && text[..2] == "[<"
            && text[|text| - 1] == (if event.kind.Up? then 'm' else 'M')
            && SplitFields(text[2..|text| - 1]) ==
               [Digits(KindCode(event.kind) + ModifierCode(event.modifiers)), Digits(event.column + 1), Digits(event.row + 1)]
  {
    hide Digits;
    hide KindCode;
    hide ModifierCode;
    hide SplitFields;
    var a, b, c := Digits(KindCode(event.kind) + ModifierCode(event.modifiers)), Digits(event.column + 1), Digits(event.row + 1);
    var text := Encode(event);
    var tail := b + ";" + c;
    assert text[2..|text| - 1] == a + ";" + tail;
    SplitFieldsAt(a, tail);
    SplitFieldsAt(b, c);
    SplitFieldsOfDigits(c);
  }

  /** Decoding inverts encoding. */
  lemma {:induction false} DecodingInvertsEncoding(event: MouseEvent)
    requires Encodable(event)
    ensures ParseSgrMouseFragment(Encode(event)) == Some(event)
  {
    EncodedFields(event);
    ButtonByteDecodes(event.kind, event.modifiers);
    hide KindCode;
    hide ModifierCode;
    hide SgrMouseKind;
    hide Bit;
    hide Digits;
    hide SplitFields;
    hide Encode;
    var cb := KindCode(event.kind) + ModifierCode(event.modifiers);
    ParseOfDigits(cb, U16_MAX);
    ParseOfDigits(event.column + 1, U16_MAX);
    ParseOfDigits(event.row + 1, U16_MAX);
  }

  /** Different events have different encodings. */
  lemma {:induction false} EncodingIsInjective(a: MouseEvent, b: MouseEvent)
    requires Encodable(a) && Encodable(b) && Encode(a) == Encode(b)
    ensures a == b
  {
    DecodingInvertsEncoding(a);
    DecodingInvertsEncoding(b);
  }

  lemma {:induction false} FieldLengths(event: MouseEvent)
    requires Encodable(event)
    ensures |Digits(KindCode(event.kind) + ModifierCode(event.modifiers))| <= 3
    ensures |Digits(event.column + 1)| <= 5 && |Digits(event.row + 1)| <= 5
  {
    DigitsLength(KindCode(event.kind) + ModifierCode(event.modifiers), 3);
    DigitsLength(event.column + 1, 5);
    DigitsLength(event.row + 1, 5);
    assert Pow10(3) == 1000 by {
      assert Pow10(2) == 100;
    }
    assert Pow10(5) == 100_000 by {
      assert Pow10(2) == 100;
      assert Pow10(4) == 100 * Pow10(2);
    }
  }

  /** An encoding is "[<", digits and semicolons, and the final letter. */
  lemma {:induction false} EncodingShape(event: MouseEvent)
    ensures var text := Encode(event);
            && text[0] == '[' && text[1] == '<' && EndsSequence(text[|text| - 1])
            && forall i :: 2 <= i < |text| - 1 ==> IsDigit(text[i]) || text[i] == ';'
  {
    hide Digits;
    hide KindCode;
    hide ModifierCode;
    hide IsDigit;
    var a, b, c := Digits(KindCode(event.kind) + ModifierCode(event.modifiers)), Digits(event.column + 1), Digits(event.row + 1);
    var text, end := Encode(event), if event.kind.Up? then "m" else "M";
    assert text == "[<" + (a + (";" + (b + (";" + (c + end)))));
    forall i | 2 <= i < |text| - 1
      ensures IsDigit(text[i]) || text[i] == ';'
    {
      if i < 2 + |a| {
        assert text[i] == a[i - 2];
      } else if i < 2 + |a| + 1 + |b| {
        assert text[i] == (";" + b)[i - 2 - |a|];
      } else {
        assert text[i] == (";" + c)[i - 3 - |a| - |b|];
      }
    }
  }

  lemma {:induction false} EncodingLength(event: MouseEvent)
    requires Encodable(event)
    ensures |Encode(event)| <= 18
  {
    FieldLengths(event);
    hide Digits;
    hide KindCode;
    hide ModifierCode;
  }

  /** Every proper prefix of an encoding keeps the decoder buffering. */
  lemma {:induction false} EncodingPrefixes(event: MouseEvent, n: nat)
    requires Encodable(event)
    requires 0 < n < |Encode(event)|
    ensures IsSgrMousePrefix(Encode(event)[..n])
    ensures !EndsSequence(Encode(event)[n - 1])
    ensures EndsSequence(Encode(event)[|Encode(event)| - 1])
  {
    EncodingShape(event);
    EncodingLength(event);
    hide Encode;
    var prefix := Encode(event)[..n];
    if n > 1 {
      assert prefix[..2] == "[<";
    }
  }

  /** Every button byte: which are refused, and what the low two bits and the flags of the others say. */
  lemma {:induction false} ButtonByteMeaning(cb: nat)
    requires cb < 256
    ensures var low, high := cb % 4, if Bit(cb, 64) then 2 else if Bit(cb, 32) then 1 else 0;
            match SgrMouseKind(cb)
            case None => high < 2 && Bit(cb, 128)
            case Some(kind) =>
              && (high == 2 || !Bit(cb, 128))
              && if high == 0 && low == 3 then kind == Up(Left)
                 else !kind.Up? && LowCode(kind) == low && HighCode(kind) == high
  {
  }

  /** Whatever is decoded can be encoded, and decodes from its encoding again. */
  lemma {:induction false} DecodedIsEncodable(text: string, event: MouseEvent)
    requires ParseSgrMouseFragment(text) == Some(event)
    ensures Encodable(event) && ParseSgrMouseFragment(Encode(event)) == Some(event)
  {
    hide SplitFields;
    hide Encode;
    hide Bit;
    DecodingInvertsEncoding(event);
  }
}
