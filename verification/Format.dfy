/** Formatted output into a bounded buffer (lib/vsprintf.c). */
module Format {
  import opened Common
  import opened Bitmap
  import opened Ceiling

  const WIDTH := 0x1_0000_0000_0000_0000

  datatype Flags = Flags(zeroPad: bool, sign: bool, plus: bool, space: bool, left: bool, special: bool, large: bool)

  const NO_FLAGS := Flags(false, false, false, false, false, false, false)

  function Rep(c: char, n: int): (s: string)
    ensures |s| == if n > 0 then n else 0
    ensures forall i :: 0 <= i < |s| ==> s[i] == c
  {
    if n <= 0 then "" else Rep(c, n - 1) + [c]
  }

  function Max(a: int, b: int): int {
    if a > b then a else b
  }

  // ---- Integer fields ----

  /** Digit `d` of 0 to 9 and a to z, or A to Z. */
  function DigitChar(large: bool, d: nat): char
    requires d < 36
  {
    if d < 10 then ('0' as int + d) as char else ((if large then 'A' else 'a') as int + d - 10) as char
  }

  /** The digits of a number, most significant first. */
  function ToBase(n: nat, base: nat, large: bool): (s: string)
    requires 2 <= base <= 36
    ensures |s| > 0
    decreases n
  {
    if n < base then [DigitChar(large, n)]
    else
      DivLess(n, base);
      ToBase(Div(n, base), base, large) + [DigitChar(large, Mod(n, base))]
  }

  lemma {:induction false} DivLess(n: nat, d: nat)
    requires d >= 2
    ensures n > 0 ==> Div(n, d) < n
    ensures 2 * Div(n, d) <= n
  {
    if n >= d { DivLess(n - d, d); }
  }

  function DigitValue(c: char): nat {
    if '0' <= c <= '9' then c as int - '0' as int
    else if 'a' <= c <= 'z' then c as int - 'a' as int + 10
    else if 'A' <= c <= 'Z' then c as int - 'A' as int + 10
    else 0
  }

  function Evaluate(s: string, base: nat): nat {
    if |s| == 0 then 0 else Evaluate(s[..|s| - 1], base) * base + DigitValue(s[|s| - 1])
  }

  /** The digits printed evaluate back to the number. */
  lemma {:induction false} DigitsEvaluate(n: nat, base: nat, large: bool)
    requires 2 <= base <= 36
    ensures Evaluate(ToBase(n, base, large), base) == n
    decreases n
  {
    var s := ToBase(n, base, large);
    if n < base {
      assert s[..0] == "";
    } else {
      DivLess(n, base);
      DigitsEvaluate(Div(n, base), base, large);
      assert s[..|s| - 1] == ToBase(Div(n, base), base, large);
      DivIs(n, base);
    }
  }

  /** No 64-bit number has more than 64 digits, so the 66 bytes the source keeps them in are enough. */
  lemma {:induction false} DigitCount(n: nat, base: nat, large: bool, k: nat)
    requires 2 <= base <= 36 && n < Pow2(k)
    ensures |ToBase(n, base, large)| <= Max(1, k)
    decreases n
  {
    if n >= base {
      DivLess(n, base);
      DigitCount(Div(n, base), base, large, k - 1);
    }
  }

  function Negative(num: nat, flags: Flags): bool { flags.sign && num >= WIDTH / 2 }

  function Magnitude(num: nat, flags: Flags): (m: nat)
    requires num < WIDTH
  {
    if Negative(num, flags) then WIDTH - num else num
  }

  function SignText(num: nat, flags: Flags): (s: string)
    ensures |s| <= 1
  {
    if Negative(num, flags) then "-"
    else if flags.sign && flags.plus then "+"
    else if flags.sign && flags.space then " "
    else ""
  }

  function PrefixText(base: nat, flags: Flags): (s: string)
    ensures |s| <= 2
  {
    if !flags.special then ""
    else if base == 16 then ['0', DigitChar(flags.large, 33)]
    else if base == 8 then "0"
    else ""
  }

  /** Blanks, sign, prefix, zeros to fill up, zeros for the precision, digits, blanks. */
  function Field(blanks: int, sign: string, prefix: string, fill: int, zeros: int, digits: string, trail: int): string {
    Rep(' ', blanks) + sign + prefix + Rep('0', fill) + Rep('0', zeros) + digits + Rep(' ', trail)
  }

  /** An integer field: sign, prefix and at least `precision` digits, filled up to `width` with blanks
      before or after, or with zeros after the prefix. */
  function NumberField(num: nat, base: nat, width: int, precision: int, flags: Flags): string
    requires num < WIDTH && 2 <= base <= 36
  {
    var digits := ToBase(Magnitude(num, flags), base, flags.large);
    var sign, prefix := SignText(num, flags), PrefixText(base, flags);
    var zeros := precision - |digits|;
    var fill := width - |sign| - |prefix| - Max(precision, |digits|);
    if flags.left then Field(0, sign, prefix, 0, zeros, digits, fill)
    else if flags.zeroPad then Field(0, sign, prefix, fill, zeros, digits, 0)
    else Field(fill, sign, prefix, 0, zeros, digits, 0)
  }

  lemma FieldLength(num: nat, base: nat, width: int, precision: int, flags: Flags)
    requires num < WIDTH && 2 <= base <= 36
    ensures |NumberField(num, base, width, precision, flags)|
         == Max(width, |SignText(num, flags)| + |PrefixText(base, flags)|
                       + Max(precision, |ToBase(Magnitude(num, flags), base, flags.large)|))
  {
  }

  // ---- The bounded buffer ----

  /** Output past the end of the buffer is counted and thrown away. */
  class Output {
    const buf: array<char>
    // How far output has got, in or past the buffer.
    var pos: nat
    // All the output, and what the buffer held before.
    ghost var out: string
    ghost const before: string

    ghost predicate Valid()
      reads this, buf
    {
      && |before| == buf.Length && pos == |out|
      && forall i :: 0 <= i < buf.Length ==> buf[i] == if i < |out| then out[i] else before[i]
    }

    constructor (buf: array<char>)
      ensures Valid() && this.buf == buf && out == "" && before == buf[..]
    {
      this.buf, pos, out, before := buf, 0, "", buf[..];
    }

    method Put(c: char)
      requires Valid()
      modifies this, buf
      ensures Valid() && out == old(out) + [c]
    {
      if pos < buf.Length { buf[pos] := c; }
      pos, out := pos + 1, out + [c];
    }

    /** `while (n-- > 0)` output a character. */
    method PutMany(c: char, n: int)
      requires Valid()
      modifies this, buf
      ensures Valid() && out == old(out) + Rep(c, n)
    {
      var size := n;
      assert out == old(out) + Rep(c, 0);
      while size > 0
        invariant Valid() && (n > 0 ==> 0 <= size <= n) && (n <= 0 ==> size == n)
        invariant out == old(out) + Rep(c, if n > 0 then n - size else 0)
        decreases size
      {
        assert Rep(c, n - size + 1) == Rep(c, n - size) + [c];
        Put(c);
        size := size - 1;
      }
    }

    method PutString(s: string)
      requires Valid()
      modifies this, buf
      ensures Valid() && out == old(out) + s
    {
      for i := 0 to |s|
        invariant Valid() && out == old(out) + s[..i]
      {
        assert s[..i + 1] == s[..i] + [s[i]];
        Put(s[i]);
      }
      assert s[..|s|] == s;
    }

    /** number(): the field is built left to right, its digits from a list built right to left. */
    method Number(num: nat, base: nat, width: int, precision: int, flags: Flags)
      requires Valid() && num < WIDTH && 2 <= base <= 36
      modifies this, buf
      ensures Valid() && out == old(out) + NumberField(num, base, width, precision, flags)
    {
      var n, size := num, width;
      var sign := "";
      if flags.sign {
        if num >= WIDTH / 2 { sign, n, size := "-", WIDTH - num, size - 1; }
        else if flags.plus { sign, size := "+", size - 1; }
        else if flags.space { sign, size := " ", size - 1; }
      }
      if flags.special {
        if base == 16 { size := size - 2; } else if base == 8 { size := size - 1; }
      }
      var digits := DigitsOf(n, base, flags.large);
      size := size - Max(precision, |digits|);
      var prefix :=
        if !flags.special then ""
        else if base == 8 then "0"
        else if base == 16 then ['0', DigitChar(flags.large, 33)]
        else "";
      assert sign == SignText(num, flags) && prefix == PrefixText(base, flags) && n == Magnitude(num, flags);
      FieldIs(num, base, width, precision, flags, size, sign, prefix, digits);
      if flags.left {
        PutField(0, sign, prefix, 0, precision - |digits|, digits, size);
      } else if flags.zeroPad {
        PutField(0, sign, prefix, size, precision - |digits|, digits, 0);
      } else {
        PutField(size, sign, prefix, 0, precision - |digits|, digits, 0);
      }
    }

    method PutField(blanks: int, sign: string, prefix: string, fill: int, zeros: int, digits: string, trail: int)
      requires Valid()
      modifies this, buf
      ensures Valid()
      ensures out == old(out) + Field(blanks, sign, prefix, fill, zeros, digits, trail)
    {
      PutMany(' ', blanks);
      PutString(sign);
      PutString(prefix);
      PutMany('0', fill);
      PutMany('0', zeros);
      PutString(digits);
      PutMany(' ', trail);
      Joined(old(out), Rep(' ', blanks), sign, prefix, Rep('0', fill), Rep('0', zeros), digits, Rep(' ', trail));
    }

    /** Terminate the string; the result is its untruncated length. */
    method Finish() returns (n: nat)
      requires Valid()
      modifies buf
      ensures n == |out|
      ensures buf.Length > 0 ==> var k := Min(buf.Length - 1, |out|);
        buf[..k] == out[..k] && buf[k] == '\0' && forall i :: k < i < buf.Length ==> buf[i] == before[i]
    {
      if buf.Length > 0 {
        if pos < buf.Length { buf[pos] := '\0'; } else { buf[buf.Length - 1] := '\0'; }
      }
      n := pos;
    }
  }

  lemma FieldIs(num: nat, base: nat, width: int, precision: int, flags: Flags, fill: int, sign: string,
      prefix: string, digits: string)
    requires num < WIDTH && 2 <= base <= 36
    requires sign == SignText(num, flags) && prefix == PrefixText(base, flags)
    requires digits == ToBase(Magnitude(num, flags), base, flags.large)
    requires fill == width - |sign| - |prefix| - Max(precision, |digits|)
    ensures NumberField(num, base, width, precision, flags) ==
      if flags.left then Field(0, sign, prefix, 0, precision - |digits|, digits, fill)
      else if flags.zeroPad then Field(0, sign, prefix, fill, precision - |digits|, digits, 0)
      else Field(fill, sign, prefix, 0, precision - |digits|, digits, 0)
  {
  }

  lemma Joined(o: string, a: string, b: string, c: string, d: string, e: string, f: string, g: string)
    ensures o + a + b + c + d + e + f + g == o + (a + b + c + d + e + f + g)
  {
  }

  /** The digits taken off a number, the lowest first, then put in order. */
  method DigitsOf(n: nat, base: nat, large: bool) returns (s: string)
    requires 2 <= base <= 36
    ensures s == ToBase(n, base, large)
  {
    s := "";
    var num := n;
    if num == 0 { return [DigitChar(large, 0)]; }
    while num != 0
      invariant ToBase(n, base, large) == if num == 0 then s else ToBase(num, base, large) + s
      decreases num
    {
      DivLess(num, base);
      s := [DigitChar(large, Mod(num, base))] + s;
      num := Div(num, base);
    }
  }

  // ---- The format string ----

  /** An argument: a number as passed, or a string (None: a pointer into the first page). */
  datatype Arg = Int(v: int) | Str(s: Option<string>)

  function IntArg(args: seq<Arg>, k: nat): int {
    if k < |args| && args[k].Int? then args[k].v else 0
  }

  function StrArg(args: seq<Arg>, k: nat): string {
    if k < |args| && args[k].Str? && args[k].s.Some? then args[k].s.value else "<NULL>"
  }

  /** The low bits of a value, below `limit`, read as a signed number. */
  function Signed(v: int, limit: nat): int
    requires limit > 0
  {
    var low := v % limit;
    if low >= limit / 2 then low - limit else low
  }

  function Low(v: int): (n: nat)
    ensures n < WIDTH
  {
    v % WIDTH
  }

  /** The qualifiers of 64-bit arguments. */
  predicate IsWide(qualifier: char) {
    qualifier == 'l' || qualifier == 'L' || qualifier == 'Z' || qualifier == 'z' || qualifier == 't'
  }

  /** The 64-bit value an integer conversion prints, from the size its qualifier gives the argument. */
  function Value(v: int, qualifier: char, sign: bool): (n: nat)
    ensures n < WIDTH
  {
    if IsWide(qualifier) then Low(v)
    else
      var limit := if qualifier == 'h' then 0x1_0000 else 0x1_0000_0000;
      if sign then Low(Signed(v, limit)) else v % limit
  }

  predicate IsDigit(c: char) { '0' <= c <= '9' }

  function CharAt(fmt: string, i: nat): char {
    if i < |fmt| then fmt[i] else '\0'
  }

  datatype Spec = Spec(flags: Flags, width: int, precision: int, qualifier: char)

  /** A specification read so far: `i` is the place in the format, `k` in the arguments. */
  datatype Parsed = Parsed(spec: Spec, i: nat, k: nat)

  predicate IsFlag(c: char) { c == '-' || c == '+' || c == ' ' || c == '#' || c == '0' }

  function AddFlag(f: Flags, c: char): Flags {
    match c
    case '-' => f.(left := true)
    case '+' => f.(plus := true)
    case ' ' => f.(space := true)
    case '#' => f.(special := true)
    case _ => f.(zeroPad := true)
  }

  function FlagsAt(fmt: string, i: nat, f: Flags): (r: (Flags, nat))
    ensures r.1 >= i && (i <= |fmt| ==> r.1 <= |fmt|)
    decreases |fmt| - i
  {
    if i < |fmt| && IsFlag(fmt[i]) then FlagsAt(fmt, i + 1, AddFlag(f, fmt[i])) else (f, i)
  }

  function NumberAt(fmt: string, i: nat, v: nat): (r: (nat, nat))
    ensures r.1 >= i && (i <= |fmt| ==> r.1 <= |fmt|)
    decreases |fmt| - i
  {
    if i < |fmt| && IsDigit(fmt[i]) then NumberAt(fmt, i + 1, v * 10 + (fmt[i] as int - '0' as int)) else (v, i)
  }

  /** A width taken from the arguments; a negative one means left-justified. */
  function StarWidth(p: Parsed, args: seq<Arg>): Parsed {
    var w := Signed(IntArg(args, p.k), 0x1_0000_0000);
    var spec := if w < 0 then p.spec.(width := -w, flags := p.spec.flags.(left := true)) else p.spec.(width := w);
    Parsed(spec, p.i + 1, p.k + 1)
  }

  function WidthAt(fmt: string, args: seq<Arg>, p: Parsed): (r: Parsed)
    ensures r.i >= p.i && (p.i <= |fmt| ==> r.i <= |fmt|)
  {
    if IsDigit(CharAt(fmt, p.i)) then
      var n := NumberAt(fmt, p.i, 0);
      p.(spec := p.spec.(width := n.0), i := n.1)
    else if CharAt(fmt, p.i) == '*' then StarWidth(p, args)
    else p
  }

  function PrecisionAt(fmt: string, args: seq<Arg>, p: Parsed): (r: Parsed)
    ensures r.i >= p.i && (p.i <= |fmt| ==> r.i <= |fmt|)
  {
    if CharAt(fmt, p.i) != '.' then p
    else if IsDigit(CharAt(fmt, p.i + 1)) then
      var n := NumberAt(fmt, p.i + 1, 0);
      p.(spec := p.spec.(precision := n.0), i := n.1)
    else if CharAt(fmt, p.i + 1) == '*' then
      Parsed(p.spec.(precision := Max(0, Signed(IntArg(args, p.k), 0x1_0000_0000))), p.i + 2, p.k + 1)
    else p.(spec := p.spec.(precision := 0), i := p.i + 1)
  }

  function QualifierAt(fmt: string, p: Parsed): (r: Parsed)
    ensures r.i >= p.i && (p.i <= |fmt| ==> r.i <= |fmt|)
  {
    var c := CharAt(fmt, p.i);
    if c != 'h' && !IsWide(c) then p
    else if c == 'l' && CharAt(fmt, p.i + 1) == 'l' then p.(spec := p.spec.(qualifier := 'L'), i := p.i + 2)
    else p.(spec := p.spec.(qualifier := c), i := p.i + 1)
  }

  /** What stands between the percent sign and the conversion. */
  function SpecAt(fmt: string, args: seq<Arg>, i: nat, k: nat): (r: Parsed)
    ensures r.i >= i && (i <= |fmt| ==> r.i <= |fmt|)
  {
    var f := FlagsAt(fmt, i, NO_FLAGS);
    QualifierAt(fmt, PrecisionAt(fmt, args, WidthAt(fmt, args, Parsed(Spec(f.0, -1, -1, '\0'), f.1, k))))
  }

  // ---- The output of a format ----

  function Justify(text: string, width: int, left: bool): string {
    if left then text + Rep(' ', width - |text|) else Rep(' ', width - |text|) + text
  }

  function Shortened(text: string, precision: int): string {
    if 0 <= precision < |text| then text[..precision] else text
  }

  predicate IsSigned(conv: char) { conv == 'd' || conv == 'i' }

  predicate IsHex(conv: char) { conv == 'x' || conv == 'X' }

  predicate IsInteger(conv: char) { conv == 'o' || IsHex(conv) || IsSigned(conv) || conv == 'u' }

  function IntegerText(spec: Spec, conv: char, v: int): string {
    var flags := spec.flags.(sign := IsSigned(conv), large := conv == 'X');
    NumberField(Value(v, spec.qualifier, IsSigned(conv)), if conv == 'o' then 8 else if IsHex(conv) then 16 else 10,
                spec.width, spec.precision, flags)
  }

  /** The text of one conversion. `%n` writes none. */
  function Converted(spec: Spec, conv: char, args: seq<Arg>, k: nat): string {
    if conv == 'c' then Justify([(IntArg(args, k) % 256) as char], spec.width, spec.flags.left)
    else if conv == 's' then Justify(Shortened(StrArg(args, k), spec.precision), spec.width, spec.flags.left)
    else if conv == 'p' then
      if spec.width == -1 then NumberField(Low(IntArg(args, k)), 16, 16, spec.precision, spec.flags.(zeroPad := true))
      else NumberField(Low(IntArg(args, k)), 16, spec.width, spec.precision, spec.flags)
    else if conv == 'n' then ""
    else if conv == '%' then "%"
    else if IsInteger(conv) then IntegerText(spec, conv, IntArg(args, k))
    else ['%', conv]
  }

  predicate TakesArg(conv: char) { conv == 'c' || conv == 's' || conv == 'p' || conv == 'n' || IsInteger(conv) }

  /** What one step of the format writes, and where it leaves the format and the arguments. */
  datatype Stride = Stride(text: string, i: nat, k: nat)

  function AfterSpec(p: Parsed, fmt: string, args: seq<Arg>): Stride {
    if p.i >= |fmt| then Stride("%", |fmt|, p.k)
    else Stride(Converted(p.spec, fmt[p.i], args, p.k), p.i + 1, if TakesArg(fmt[p.i]) then p.k + 1 else p.k)
  }

  function NextText(fmt: string, args: seq<Arg>, i: nat, k: nat): (r: Stride)
    requires i < |fmt|
    ensures i < r.i <= |fmt|
  {
    if fmt[i] != '%' then Stride([fmt[i]], i + 1, k) else AfterSpec(SpecAt(fmt, args, i + 1, k), fmt, args)
  }

  /** The whole output from place `i` of the format and argument `k` on. */
  function Render(fmt: string, args: seq<Arg>, i: nat, k: nat): string
    decreases |fmt| - i
  {
    if i >= |fmt| then ""
    else
      var t := NextText(fmt, args, i, k);
      t.text + Render(fmt, args, t.i, t.k)
  }

  method ReadFlags(fmt: string, i: nat) returns (f: Flags, j: nat)
    ensures (f, j) == FlagsAt(fmt, i, NO_FLAGS)
  {
    f, j := NO_FLAGS, i;
    while j < |fmt| && IsFlag(fmt[j])
      invariant FlagsAt(fmt, j, f) == FlagsAt(fmt, i, NO_FLAGS)
    {
      f, j := AddFlag(f, fmt[j]), j + 1;
    }
  }

  /** skip_atoi() */
  method ReadNumber(fmt: string, i: nat) returns (v: nat, j: nat)
    ensures (v, j) == NumberAt(fmt, i, 0)
  {
    v, j := 0, i;
    while j < |fmt| && IsDigit(fmt[j])
      invariant NumberAt(fmt, j, v) == NumberAt(fmt, i, 0)
    {
      v, j := v * 10 + (fmt[j] as int - '0' as int), j + 1;
    }
  }

  method ReadSpec(fmt: string, args: seq<Arg>, i: nat, k: nat) returns (p: Parsed)
    ensures p == SpecAt(fmt, args, i, k)
  {
    var flags, j := ReadFlags(fmt, i);
    p := Parsed(Spec(flags, -1, -1, '\0'), j, k);
    if IsDigit(CharAt(fmt, p.i)) {
      var v, e := ReadNumber(fmt, p.i);
      p := p.(spec := p.spec.(width := v), i := e);
    } else if CharAt(fmt, p.i) == '*' {
      p := StarWidth(p, args);
    }
    if CharAt(fmt, p.i) == '.' {
      p := p.(i := p.i + 1);
      var precision := -1;
      if IsDigit(CharAt(fmt, p.i)) {
        var v, e := ReadNumber(fmt, p.i);
        precision, p := v, p.(i := e);
      } else if CharAt(fmt, p.i) == '*' {
        precision, p := Signed(IntArg(args, p.k), 0x1_0000_0000), p.(i := p.i + 1, k := p.k + 1);
      }
      if precision < 0 { precision := 0; }
      p := p.(spec := p.spec.(precision := precision));
    }
    p := QualifierAt(fmt, p);
  }

  /** Write one conversion. */
  method Convert(o: Output, spec: Spec, conv: char, args: seq<Arg>, k: nat)
    requires o.Valid()
    modifies o, o.buf
    ensures o.Valid() && o.out == old(o.out) + Converted(spec, conv, args, k)
  {
    if conv == 'c' || conv == 's' {
      var text := if conv == 'c' then [(IntArg(args, k) % 256) as char] else Shortened(StrArg(args, k), spec.precision);
      if !spec.flags.left { o.PutMany(' ', spec.width - |text|); }
      o.PutString(text);
      if spec.flags.left { o.PutMany(' ', spec.width - |text|); }
    } else if conv == 'p' {
      if spec.width == -1 {
        o.Number(Low(IntArg(args, k)), 16, 16, spec.precision, spec.flags.(zeroPad := true));
      } else {
        o.Number(Low(IntArg(args, k)), 16, spec.width, spec.precision, spec.flags);
      }
    } else if conv == 'n' {
    } else if conv == '%' {
      o.Put('%');
    } else if IsInteger(conv) {
      var flags := spec.flags.(sign := IsSigned(conv), large := conv == 'X');
      var base := if conv == 'o' then 8 else if IsHex(conv) then 16 else 10;
      o.Number(Value(IntArg(args, k), spec.qualifier, flags.sign), base, spec.width, spec.precision, flags);
    } else {
      o.Put('%');
      o.Put(conv);
    }
  }

  /** One character of the format, or one conversion. */
  method Step(o: Output, fmt: string, args: seq<Arg>, i0: nat, k0: nat) returns (i: nat, k: nat)
    requires o.Valid() && i0 < |fmt|
    modifies o, o.buf
    ensures o.Valid() && var t := NextText(fmt, args, i0, k0); o.out == old(o.out) + t.text && i == t.i && k == t.k
  {
    if fmt[i0] != '%' {
      o.Put(fmt[i0]);
      return i0 + 1, k0;
    }
    var p := ReadSpec(fmt, args, i0 + 1, k0);
    i, k := Directive(o, p, fmt, args);
  }

  method Directive(o: Output, p: Parsed, fmt: string, args: seq<Arg>) returns (i: nat, k: nat)
    requires o.Valid()
    modifies o, o.buf
    ensures o.Valid() && var t := AfterSpec(p, fmt, args); o.out == old(o.out) + t.text && i == t.i && k == t.k
  {
    if p.i >= |fmt| {
      o.Put('%');
      return |fmt|, p.k;
    }
    Convert(o, p.spec, fmt[p.i], args, p.k);
    return p.i + 1, if TakesArg(fmt[p.i]) then p.k + 1 else p.k;
  }

  lemma Moved(was: string, text: string, rest: string)
    ensures was + (text + rest) == was + text + rest && text + "" == text && "" + rest == rest
  {
  }

  /** The source's test of a size with an int conversion. */
  predicate Refused(size: nat) {
    size % 0x1_0000_0000 >= 0x8000_0000
  }

  /** Format into a buffer: the first characters of the output, then a NUL, nothing past the buffer;
      the result is the length of the whole output. A refused size writes nothing. */
  method Vsnprintf(buf: array<char>, fmt: string, args: seq<Arg>) returns (n: nat)
    modifies buf
    ensures Refused(buf.Length) ==> n == 0 && buf[..] == old(buf[..])
    ensures !Refused(buf.Length) ==> n == |Render(fmt, args, 0, 0)|
    ensures !Refused(buf.Length) && buf.Length > 0 ==>
      var k := Min(buf.Length - 1, n);
      && buf[..k] == Render(fmt, args, 0, 0)[..k] && buf[k] == '\0'
      && forall i :: k < i < buf.Length ==> buf[i] == old(buf[i])
  {
    if Refused(buf.Length) { return 0; }
    var o := new Output(buf);
    var i, k: nat := 0, 0;
    Moved("", "", Render(fmt, args, 0, 0));
    while i < |fmt|
      invariant i <= |fmt| && o.Valid() && o.buf == buf && fresh(o) && o.before == old(buf[..])
      invariant o.out + Render(fmt, args, i, k) == Render(fmt, args, 0, 0)
      decreases |fmt| - i
    {
      ghost var was, t := o.out, NextText(fmt, args, i, k);
      i, k := Step(o, fmt, args, i, k);
      Moved(was, t.text, Render(fmt, args, i, k));
    }
    Moved("", o.out, "");
    n := o.Finish();
  }
}
