/** What a format stands for, told without the conversion's own steps: the text of an integer, and
    how a directive written out is read back (lib/vsprintf.c). */
module FormatText {
  import opened Common
  import opened Ceiling
  import opened Format

  // ---- Integers ----

  /** Digits below `base`, in letters of one case, without a leading zero. */
  predicate Plain(s: string, base: nat, large: bool) {
    && |s| > 0 && (|s| > 1 ==> s[0] != '0')
    && forall i :: 0 <= i < |s| ==> PlainDigit(s[i], base, large)
  }

  predicate PlainDigit(c: char, base: nat, large: bool) {
    DigitValue(c) < base && ('0' <= c <= '9' || (if large then 'A' <= c <= 'Z' else 'a' <= c <= 'z'))
  }

  lemma {:induction false} DigitsPlain(n: nat, base: nat, large: bool)
    requires 2 <= base <= 36
    ensures Plain(ToBase(n, base, large), base, large)
    ensures n > 0 ==> ToBase(n, base, large)[0] != '0'
    decreases n
  {
    if n >= base {
      DivLess(n, base);
      assert Div(n, base) > 0;
      DigitsPlain(Div(n, base), base, large);
    }
  }

  /** Sign and prefix, zeros for the precision and digits; in a wider field blanks behind them or before
      them, or zeros between. */
  function Laid(width: int, left: bool, zeroPad: bool, head: string, precision: int, digits: string): string {
    var tail := Rep('0', precision - |digits|) + digits;
    var spare := width - |head| - |tail|;
    if spare <= 0 then head + tail
    else if left then head + tail + Rep(' ', spare)
    else if zeroPad then head + Rep('0', spare) + tail
    else Rep(' ', spare) + head + tail
  }

  lemma FieldLaid(num: nat, base: nat, width: int, precision: int, flags: Flags)
    requires num < WIDTH && 2 <= base <= 36
    ensures NumberField(num, base, width, precision, flags) == Laid(width, flags.left, flags.zeroPad,
      SignText(num, flags) + PrefixText(base, flags), precision, ToBase(Magnitude(num, flags), base, flags.large))
  {
    var digits := ToBase(Magnitude(num, flags), base, flags.large);
    FieldOut(SignText(num, flags), PrefixText(base, flags), precision, digits, width, flags);
  }

  /** The field's text in its three orders. */
  lemma FieldOut(sign: string, prefix: string, precision: int, digits: string, width: int, flags: Flags)
    ensures var zeros, fill := precision - |digits|, width - |sign| - |prefix| - Max(precision, |digits|);
      (if flags.left then Field(0, sign, prefix, 0, zeros, digits, fill)
       else if flags.zeroPad then Field(0, sign, prefix, fill, zeros, digits, 0)
       else Field(fill, sign, prefix, 0, zeros, digits, 0))
      == Laid(width, flags.left, flags.zeroPad, sign + prefix, precision, digits)
  {
    var zeros, fill := precision - |digits|, width - |sign| - |prefix| - Max(precision, |digits|);
    var z := Rep('0', zeros);
    assert fill == width - |sign + prefix| - |z + digits|;
    if fill <= 0 { NoFill(Rep(' ', 0), sign, prefix, Rep('0', 0), z, digits, Rep(' ', 0)); }
    else if flags.left { BlanksLast(Rep(' ', 0), sign, prefix, Rep('0', 0), z, digits, Rep(' ', fill)); }
    else if flags.zeroPad { ZerosInside(Rep(' ', 0), sign, prefix, Rep('0', fill), z, digits, Rep(' ', 0)); }
    else { BlanksFirst(Rep(' ', fill), sign, prefix, Rep('0', 0), z, digits, Rep(' ', 0)); }
  }

  // Parts of a field that are not there leave the others as they are.

  lemma NoFill(a: string, b: string, c: string, d: string, e: string, f: string, g: string)
    requires a == "" && d == "" && g == ""
    ensures a + b + c + d + e + f + g == b + c + (e + f)
  {
  }

  lemma BlanksLast(a: string, b: string, c: string, d: string, e: string, f: string, g: string)
    requires a == "" && d == ""
    ensures a + b + c + d + e + f + g == b + c + (e + f) + g
  {
  }

  lemma ZerosInside(a: string, b: string, c: string, d: string, e: string, f: string, g: string)
    requires a == "" && g == ""
    ensures a + b + c + d + e + f + g == b + c + d + (e + f)
  {
  }

  lemma BlanksFirst(a: string, b: string, c: string, d: string, e: string, f: string, g: string)
    requires d == "" && g == ""
    ensures a + b + c + d + e + f + g == a + (b + c) + (e + f)
  {
  }

  /** How many values an integer argument can have, by its qualifier. */
  function Range(qualifier: char): (n: nat)
    ensures n > 0
  {
    if qualifier == 'h' then 0x1_0000
    else if qualifier == 'l' || qualifier == 'L' || qualifier == 'Z' || qualifier == 'z' || qualifier == 't'
      then 0x1_0000_0000_0000_0000
    else 0x1_0000_0000
  }

  /** The number an integer conversion prints: the argument in the size its qualifier gives it, for d
      and i as a signed number. */
  function Printed(v: int, qualifier: char, conv: char): int {
    var n := v % Range(qualifier);
    if (conv == 'd' || conv == 'i') && 2 * n >= Range(qualifier) then n - Range(qualifier) else n
  }

  /** What stands before the digits. */
  function Head(x: int, conv: char, flags: Flags): string {
    if conv == 'd' || conv == 'i' then
      (if x < 0 then "-" else if flags.plus then "+" else if flags.space then " " else "")
    else if !flags.special then ""
    else if conv == 'x' then "0x"
    else if conv == 'X' then "0X"
    else if conv == 'o' then "0"
    else ""
  }

  function Base(conv: char): nat {
    if conv == 'o' then 8 else if conv == 'x' || conv == 'X' then 16 else 10
  }

  /** `s` is the number `x` with these digits. */
  ghost predicate Shows(s: string, spec: Spec, conv: char, x: int, digits: string) {
    && Plain(digits, Base(conv), conv == 'X') && Evaluate(digits, Base(conv)) == (if x < 0 then -x else x)
    && s == Laid(spec.width, spec.flags.left, spec.flags.zeroPad, Head(x, conv, spec.flags), spec.precision, digits)
  }

  /** An integer conversion prints the number's sign, its prefix and its digits in its base, which
      evaluate to its magnitude. */
  lemma IntegerPrinted(spec: Spec, conv: char, v: int)
    requires IsInteger(conv)
    ensures exists digits: string ::
      Shows(IntegerText(spec, conv, v), spec, conv, Printed(v, spec.qualifier, conv), digits)
  {
    var x := Printed(v, spec.qualifier, conv);
    var num := Value(v, spec.qualifier, IsSigned(conv));
    ValueIs(v, spec.qualifier, conv);
    NumberShown(num, conv, spec);
    var flags := spec.flags.(sign := IsSigned(conv), large := conv == 'X');
    assert x == if Negative(num, flags) then num - WIDTH else num;
    assert Shows(IntegerText(spec, conv, v), spec, conv, x, ToBase(Magnitude(num, flags), Base(conv), flags.large));
  }

  lemma NumberShown(num: nat, conv: char, spec: Spec)
    requires IsInteger(conv) && num < WIDTH
    ensures var flags := spec.flags.(sign := IsSigned(conv), large := conv == 'X');
      Shows(NumberField(num, Base(conv), spec.width, spec.precision, flags), spec, conv,
        if Negative(num, flags) then num - WIDTH else num, ToBase(Magnitude(num, flags), Base(conv), flags.large))
  {
    var flags := spec.flags.(sign := IsSigned(conv), large := conv == 'X');
    DigitsPlain(Magnitude(num, flags), Base(conv), flags.large);
    DigitsEvaluate(Magnitude(num, flags), Base(conv), flags.large);
    HeadIs(num, conv, spec.flags);
    FieldLaid(num, Base(conv), spec.width, spec.precision, flags);
  }

  lemma ValueIs(v: int, qualifier: char, conv: char)
    requires IsInteger(conv)
    ensures var x := Printed(v, qualifier, conv);
      && Value(v, qualifier, IsSigned(conv)) == (if x < 0 then x + WIDTH else x)
      && -(WIDTH / 2) <= x < (if IsSigned(conv) then WIDTH / 2 else WIDTH)
  {
  }

  lemma HeadIs(num: nat, conv: char, f: Flags)
    requires IsInteger(conv) && num < WIDTH
    ensures var flags := f.(sign := IsSigned(conv), large := conv == 'X');
      SignText(num, flags) + PrefixText(if conv == 'o' then 8 else if IsHex(conv) then 16 else 10, flags)
        == Head(if IsSigned(conv) && num >= WIDTH / 2 then num - WIDTH else num, conv, f)
  {
  }

  /** Text is filled up with blanks on one side only. */
  lemma Justified(text: string, width: int, left: bool)
    ensures var s, spare := Justify(text, width, left), width - |text|;
      if spare <= 0 then s == text
      else |s| == width && if left then text <= s && forall i :: |text| <= i < width ==> s[i] == ' '
      else s[spare..] == text && forall i :: 0 <= i < spare ==> s[i] == ' '
  {
  }

  // ---- Directives ----

  /** A width or precision as written: not at all, in digits, from the arguments, or a point alone. */
  datatype Count = Absent | Digits | Star | Point

  /** The characters from place `i` up to `j`. */
  function Span(fmt: string, i: nat, j: nat): string {
    if i <= j <= |fmt| then fmt[i..j] else ""
  }

  ghost predicate DigitsAt(fmt: string, i: nat, j: nat) {
    i < j <= |fmt| && !IsDigit(CharAt(fmt, j)) && forall h :: i <= h < j ==> IsDigit(fmt[h])
  }

  ghost predicate FlagsStand(fmt: string, i: nat, j: nat) {
    i <= j <= |fmt| && !IsFlag(CharAt(fmt, j)) && forall h :: i <= h < j ==> IsFlag(fmt[h])
  }

  /** A width stands there; it starts with no zero, which is a flag. */
  ghost predicate WidthStands(fmt: string, i: nat, j: nat, w: Count) {
    match w
    case Absent => j == i && !IsDigit(CharAt(fmt, i)) && CharAt(fmt, i) != '*'
    case Digits => DigitsAt(fmt, i, j)
    case Star => j == i + 1 && CharAt(fmt, i) == '*'
    case Point => false
  }

  ghost predicate PrecisionStands(fmt: string, i: nat, j: nat, p: Count) {
    match p
    case Absent => j == i && CharAt(fmt, i) != '.'
    case Digits => CharAt(fmt, i) == '.' && DigitsAt(fmt, i + 1, j)
    case Star => j == i + 2 && CharAt(fmt, i) == '.' && CharAt(fmt, i + 1) == '*'
    case Point => j == i + 1 && CharAt(fmt, i) == '.' && !IsDigit(CharAt(fmt, j)) && CharAt(fmt, j) != '*'
  }

  /** A qualifier stands there: none, a letter, or two of them, `q`. */
  predicate QualifierStands(fmt: string, i: nat, j: nat, q: string) {
    var c := CharAt(fmt, i);
    if q == "" then j == i && c != 'h' && c != 'l' && c != 'L' && c != 'Z' && c != 'z' && c != 't'
    else if q == "ll" then j == i + 2 && c == 'l' && CharAt(fmt, i + 1) == 'l'
    else if q == "l" then j == i + 1 && c == 'l' && CharAt(fmt, j) != 'l'
    else j == i + 1 && q == [c] && (c == 'h' || c == 'L' || c == 'Z' || c == 'z' || c == 't')
  }

  /** The flags named by the characters, on top of others. */
  function FlagsOf(f: Flags, fs: string): Flags {
    Flags(f.zeroPad || '0' in fs, f.sign, f.plus || '+' in fs, f.space || ' ' in fs, f.left || '-' in fs,
          f.special || '#' in fs, f.large)
  }

  lemma {:induction false} FlagsRead(fmt: string, i: nat, j: nat, f: Flags)
    requires FlagsStand(fmt, i, j)
    ensures FlagsAt(fmt, i, f) == (FlagsOf(f, Span(fmt, i, j)), j)
    decreases j - i
  {
    if i < j {
      FlagsRead(fmt, i + 1, j, AddFlag(f, fmt[i]));
      FirstFlag(f, fmt, i, j);
    }
  }

  lemma FirstFlag(f: Flags, fmt: string, i: nat, j: nat)
    requires i < j <= |fmt| && IsFlag(fmt[i])
    ensures FlagsOf(AddFlag(f, fmt[i]), Span(fmt, i + 1, j)) == FlagsOf(f, Span(fmt, i, j))
  {
    OneFlag(f, fmt[i], Span(fmt, i + 1, j));
    assert Span(fmt, i, j) == [fmt[i]] + Span(fmt, i + 1, j);
  }

  lemma OneFlag(f: Flags, c: char, fs: string)
    requires IsFlag(c)
    ensures FlagsOf(AddFlag(f, c), fs) == FlagsOf(f, [c] + fs)
  {
  }

  lemma {:induction false} DigitsRead(fmt: string, i: nat, h: nat, j: nat)
    requires DigitsAt(fmt, i, j) && i <= h <= j
    ensures NumberAt(fmt, i, 0) == NumberAt(fmt, h, Evaluate(Span(fmt, i, h), 10))
    decreases h
  {
    if h > i {
      DigitsRead(fmt, i, h - 1, j);
      assert Span(fmt, i, h)[..h - 1 - i] == Span(fmt, i, h - 1);
    }
  }

  lemma NumberRead(fmt: string, i: nat, j: nat)
    requires DigitsAt(fmt, i, j)
    ensures NumberAt(fmt, i, 0) == (Evaluate(Span(fmt, i, j), 10), j)
  {
    DigitsRead(fmt, i, j, j);
  }

  /** The value of a width, and whether it puts the text to the left. */
  function WidthOf(w: Count, digits: string, args: seq<Arg>, k: nat): int {
    match w
    case Digits => Evaluate(digits, 10)
    case Star => var x := Printed(IntArg(args, k), '\0', 'd'); if x < 0 then -x else x
    case _ => -1
  }

  function LeftBy(w: Count, args: seq<Arg>, k: nat): bool {
    w.Star? && Printed(IntArg(args, k), '\0', 'd') < 0
  }

  function PrecisionOf(p: Count, digits: string, args: seq<Arg>, k: nat): int {
    match p
    case Absent => -1
    case Digits => Evaluate(digits, 10)
    case Star => Max(0, Printed(IntArg(args, k), '\0', 'd'))
    case Point => 0
  }

  /** A star takes an argument. */
  function Stars(c: Count): nat { if c.Star? then 1 else 0 }

  lemma WidthRead(fmt: string, args: seq<Arg>, f: Flags, i: nat, j: nat, k: nat, w: Count)
    requires WidthStands(fmt, i, j, w)
    ensures WidthAt(fmt, args, Parsed(Spec(f, -1, -1, '\0'), i, k)) == Parsed(
      Spec(f.(left := f.left || LeftBy(w, args, k)), WidthOf(w, Span(fmt, i, j), args, k), -1, '\0'), j, k + Stars(w))
  {
    if w.Digits? { NumberRead(fmt, i, j); }
  }

  lemma PrecisionRead(fmt: string, args: seq<Arg>, f: Flags, width: int, i: nat, j: nat, k: nat, p: Count)
    requires PrecisionStands(fmt, i, j, p)
    ensures PrecisionAt(fmt, args, Parsed(Spec(f, width, -1, '\0'), i, k)) ==
      Parsed(Spec(f, width, PrecisionOf(p, Span(fmt, i + 1, j), args, k), '\0'), j, k + Stars(p))
  {
    if p.Digits? { NumberRead(fmt, i + 1, j); }
  }

  function QualifierOf(q: string): char {
    if q == "" then '\0' else if q == "ll" then 'L' else q[0]
  }

  lemma QualifierRead(fmt: string, f: Flags, width: int, precision: int, i: nat, j: nat, k: nat, q: string)
    requires QualifierStands(fmt, i, j, q)
    ensures QualifierAt(fmt, Parsed(Spec(f, width, precision, '\0'), i, k)) ==
      Parsed(Spec(f, width, precision, QualifierOf(q)), j, k)
  {
  }

  /** A directive is read as its flags, width, precision and qualifier stand there. */
  lemma DirectiveRead(fmt: string, args: seq<Arg>, i: nat, i1: nat, i2: nat, i3: nat, i4: nat, k: nat,
      w: Count, p: Count, q: string)
    requires FlagsStand(fmt, i, i1) && WidthStands(fmt, i1, i2, w)
    requires PrecisionStands(fmt, i2, i3, p) && QualifierStands(fmt, i3, i4, q)
    ensures var f, k1 := FlagsOf(NO_FLAGS, Span(fmt, i, i1)), k + Stars(w);
      SpecAt(fmt, args, i, k) == Parsed(
        Spec(f.(left := f.left || LeftBy(w, args, k)), WidthOf(w, Span(fmt, i1, i2), args, k),
             PrecisionOf(p, Span(fmt, i2 + 1, i3), args, k1), QualifierOf(q)),
        i4, k1 + Stars(p))
  {
    var f, k1 := FlagsOf(NO_FLAGS, Span(fmt, i, i1)), k + Stars(w);
    FlagsRead(fmt, i, i1, NO_FLAGS);
    WidthRead(fmt, args, f, i1, i2, k, w);
    var g, width := f.(left := f.left || LeftBy(w, args, k)), WidthOf(w, Span(fmt, i1, i2), args, k);
    PrecisionRead(fmt, args, g, width, i2, i3, k1, p);
    QualifierRead(fmt, g, width, PrecisionOf(p, Span(fmt, i2 + 1, i3), args, k1), i3, i4, k1 + Stars(p), q);
  }

  /** A directive takes one argument for its conversion letter, if that is one of ten. */
  lemma Consumed(p: Parsed, fmt: string, args: seq<Arg>)
    requires p.i < |fmt|
    ensures var conv := fmt[p.i];
      var t := AfterSpec(p, fmt, args);
      && t.i == p.i + 1
      && t.k == p.k + (if conv == 'c' || conv == 's' || conv == 'p' || conv == 'n' || conv == 'o' || conv == 'x'
           || conv == 'X' || conv == 'd' || conv == 'i' || conv == 'u' then 1 else 0)
  {
  }
}
