/** Unloading a cpio archive from punched cards (installer/cpio.c). The format is the cpio
    interchange format of the pax utility in POSIX.1. */
module Cpio {
  import opened Common
  import opened Ceiling

  const HEADER := 76
  const CARD := 80
  const WORD := 0x1_0000_0000

  // "TRAILER!!!"
  const TRAILER: Bytes := [0x54, 0x52, 0x41, 0x49, 0x4c, 0x45, 0x52, 0x21, 0x21, 0x21]

  // ---- Octal numbers ----

  function Wrap(x: int): nat { x % WORD }

  /** getnumber(): one digit after the other, in 32 bits. */
  function GetNumber(digits: Bytes): (n: nat)
    ensures n < WORD
  {
    if |digits| == 0 then 0
    else Wrap(GetNumber(digits[..|digits| - 1]) * 8 + (digits[|digits| - 1] as int - 0x30))
  }

  method ReadNumber(digits: Bytes) returns (n: nat)
    ensures n == GetNumber(digits)
  {
    n := 0;
    for i := 0 to |digits|
      invariant n == GetNumber(digits[..i])
    {
      assert digits[..i + 1][..i] == digits[..i];
      n := Wrap(n * 8 + (digits[i] as int - 0x30));
    }
    assert digits[..|digits|] == digits;
  }

  /** The last `k` octal digits of a number. */
  function Octal(n: nat, k: nat): (d: Bytes)
    ensures |d| == k
  {
    if k == 0 then [] else Octal(n / 8, k - 1) + [0x30 + n % 8]
  }

  function Pow8(k: nat): nat { if k == 0 then 1 else 8 * Pow8(k - 1) }

  /** A number written in enough octal digits reads back, if it fits 32 bits. */
  lemma {:induction false} NumberReadsBack(n: nat, k: nat)
    requires n < Pow8(k) && n < WORD
    ensures GetNumber(Octal(n, k)) == n
  {
    if k > 0 {
      NumberReadsBack(n / 8, k - 1);
      assert Octal(n, k)[..k - 1] == Octal(n / 8, k - 1);
    }
  }

  // ---- The archive as one stream of bytes ----

  datatype Member = Member(name: Bytes, contents: Bytes)

  function NameSize(s: Bytes): nat
    requires |s| >= HEADER
  {
    GetNumber(s[59..65])
  }

  function FileSize(s: Bytes): nat
    requires |s| >= HEADER
  {
    GetNumber(s[65..76])
  }

  /** The comparison with the trailer's name: as the repository's strncmp() works, of the first byte only. */
  predicate IsTrailer(coding: Coding, name: Bytes) {
    |name| == 11 && (if coding.AsWritten? then name[0] == TRAILER[0] else name[..10] == TRAILER)
  }

  /** What the stream starts with: less than a member, the trailer, or a member of `taken` bytes. */
  datatype Step = Short | End | Next(member: Member, taken: nat)

  function First(coding: Coding, s: Bytes): (r: Step)
    ensures r.Next? ==> HEADER <= r.taken <= |s|
  {
    if |s| < HEADER || |s| < HEADER + NameSize(s) then Short
    else
      var at := HEADER + NameSize(s);
      if IsTrailer(coding, s[HEADER..at]) then End
      else if |s| < at + FileSize(s) then Short
      else Next(Member(s[HEADER..at], s[at..at + FileSize(s)]), at + FileSize(s))
  }

  /** The members before the trailer; None if the stream ends before it. */
  function Parse(coding: Coding, s: Bytes): (r: Option<seq<Member>>)
    decreases |s|
  {
    match First(coding, s)
    case Short => None
    case End => Some([])
    case Next(m, n) => Prepend([m], Parse(coding, s[n..]))
  }

  function Prepend(visited: seq<Member>, r: Option<seq<Member>>): Option<seq<Member>> {
    if r.None? then None else Some(visited + r.value)
  }

  predicate StopsEarly(m: Member) {
    IsTrailer(AsWritten, m.name) && !IsTrailer(Intended, m.name)
  }

  /** As written the members are read up to the first whose ten-character name starts with T: all
      of them exactly when there is none. */
  lemma {:induction false} AsWrittenReads(s: Bytes)
    requires Parse(Intended, s).Some?
    ensures var ms := Parse(Intended, s).value;
      var r := Parse(AsWritten, s);
      && r.Some? && r.value <= ms && (forall i :: 0 <= i < |r.value| ==> !StopsEarly(r.value[i]))
      && (|r.value| < |ms| ==> StopsEarly(ms[|r.value|]))
      && (r.value == ms <==> forall i :: 0 <= i < |ms| ==> !StopsEarly(ms[i]))
    decreases |s|
  {
    var r := First(Intended, s);
    if r.Next? && First(AsWritten, s).Next? {
      AsWrittenReads(s[r.taken..]);
    }
  }

  // ---- Packing an archive ----

  /** A member as archives have it: 59 bytes of other fields, six octal digits of the name's length,
      eleven of the contents', then both. */
  function Packed(front: Bytes, m: Member): (s: Bytes) {
    front + Octal(|m.name|, 6) + Octal(|m.contents|, 11) + m.name + m.contents
  }

  function Archive(fronts: seq<Bytes>, ms: seq<Member>, end: Bytes): (s: Bytes)
    requires |fronts| == |ms|
  {
    if |ms| == 0 then end else Packed(fronts[0], ms[0]) + Archive(fronts[1..], ms[1..], end)
  }

  /** The name's length fits its six digits, and that of the contents 32 bits. */
  predicate Packable(front: Bytes, m: Member) {
    |front| == 59 && |m.name| < 0x4_0000 && |m.contents| < 0x1_0000_0000
  }

  lemma PackedFields(front: Bytes, m: Member, rest: Bytes)
    requires Packable(front, m)
    ensures var s, n := Packed(front, m) + rest, |m.name|;
      && |s| == 76 + n + |m.contents| + |rest| && NameSize(s) == n && FileSize(s) == |m.contents|
      && s[76..76 + n] == m.name && s[76 + n..76 + n + |m.contents|] == m.contents
      && s[76 + n + |m.contents|..] == rest
  {
    assert Pow8(6) == 0x4_0000 && Pow8(11) == 0x2_0000_0000 by {
      assert Pow8(3) == 512;
      assert Pow8(9) == 0x800_0000;
    }
    NumberReadsBack(|m.name|, 6);
    NumberReadsBack(|m.contents|, 11);
    var s := Packed(front, m) + rest;
    assert s[59..65] == Octal(|m.name|, 6) && s[65..76] == Octal(|m.contents|, 11);
  }

  lemma PackedFirst(coding: Coding, front: Bytes, m: Member, rest: Bytes)
    requires Packable(front, m) && !IsTrailer(coding, m.name)
    ensures Parse(coding, Packed(front, m) + rest) == Prepend([m], Parse(coding, rest))
  {
    PackedFields(front, m, rest);
  }

  function Trailer(last: Bytes, fill: Bytes): Bytes {
    Packed(last, Member(TRAILER + [0], [])) + fill
  }

  lemma PackedEnd(coding: Coding, last: Bytes, fill: Bytes)
    requires |last| == 59
    ensures Parse(coding, Trailer(last, fill)) == Some([])
  {
    PackedFields(last, Member(TRAILER + [0], []), fill);
    assert (TRAILER + [0])[..10] == TRAILER;
  }

  /** An archive of members, its trailer and whatever fills its last card parse back to the members,
      unless one of them is taken for the trailer. */
  lemma {:induction false} PackedParses(coding: Coding, fronts: seq<Bytes>, ms: seq<Member>, last: Bytes, fill: Bytes)
    requires |fronts| == |ms| && |last| == 59
    requires forall i :: 0 <= i < |ms| ==> Packable(fronts[i], ms[i]) && !IsTrailer(coding, ms[i].name)
    ensures Parse(coding, Archive(fronts, ms, Trailer(last, fill))) == Some(ms)
    decreases |ms|
  {
    if |ms| == 0 {
      PackedEnd(coding, last, fill);
    } else {
      PackedParses(coding, fronts[1..], ms[1..], last, fill);
      OneMore(coding, fronts, ms, Trailer(last, fill));
    }
  }

  lemma OneMore(coding: Coding, fronts: seq<Bytes>, ms: seq<Member>, end: Bytes)
    requires |fronts| == |ms| > 0 && Packable(fronts[0], ms[0]) && !IsTrailer(coding, ms[0].name)
    requires Parse(coding, Archive(fronts[1..], ms[1..], end)) == Some(ms[1..])
    ensures Parse(coding, Archive(fronts, ms, end)) == Some(ms)
  {
    PackedFirst(coding, fronts[0], ms[0], Archive(fronts[1..], ms[1..], end));
    assert [ms[0]] + ms[1..] == ms;
  }

  // ---- Card by card ----

  /** The buffer holds the stream from `used` to `pos`, a card boundary. */
  ghost predicate Buffered(stream: Bytes, used: nat, pos: nat, buf: Bytes) {
    used <= pos <= |stream| && Mod(pos, CARD) == 0 && Mod(|stream|, CARD) == 0 && buf == stream[used..pos]
  }

  lemma NextCard(stream: Bytes, pos: nat)
    requires Mod(pos, CARD) == 0 && Mod(|stream|, CARD) == 0 && pos < |stream|
    ensures pos + CARD <= |stream| && Mod(pos + CARD, CARD) == 0
  {
    DivIs(pos, CARD);
    DivIs(|stream|, CARD);
  }

  /** Read cards until `need` bytes are in the buffer. False: the cards ran out. */
  method Fill(stream: Bytes, ghost used: nat, pos0: nat, buf0: Bytes, need: nat)
      returns (ok: bool, pos: nat, buf: Bytes)
    requires Buffered(stream, used, pos0, buf0)
    ensures Buffered(stream, used, pos, buf) && (ok <==> |buf| >= need) && (ok <==> used + need <= |stream|)
  {
    pos, buf := pos0, buf0;
    while |buf| < need
      invariant Buffered(stream, used, pos, buf)
      decreases |stream| - pos
    {
      if pos == |stream| { return false, pos, buf; }
      NextCard(stream, pos);
      buf := buf + stream[pos..pos + CARD];
      pos := pos + CARD;
    }
    return true, pos, buf;
  }

  /** Fill the buffer with `n` bytes and take them out of it. */
  method Take(stream: Bytes, ghost used: nat, pos0: nat, buf0: Bytes, n: nat)
      returns (ok: bool, part: Bytes, pos: nat, buf: Bytes)
    requires Buffered(stream, used, pos0, buf0)
    ensures ok <==> used + n <= |stream|
    ensures ok ==> Buffered(stream, used + n, pos, buf) && part == stream[used..used + n]
  {
    ok, pos, buf := Fill(stream, used, pos0, buf0, n);
    if ok {
      part, buf := buf[..n], buf[n..];
    } else {
      part := [];
    }
  }

  /** Read the next member into the buffer, a card at a time, and take it out. */
  method ReadMember(coding: Coding, stream: Bytes, ghost used: nat, pos0: nat, buf0: Bytes)
      returns (r: Step, pos: nat, buf: Bytes)
    requires Buffered(stream, used, pos0, buf0)
    ensures r == First(coding, stream[used..])
    ensures r.Next? ==> Buffered(stream, used + r.taken, pos, buf)
  {
    ghost var rest := stream[used..];
    var ok, part, name, contents;
    ok, pos, buf := Fill(stream, used, pos0, buf0, HEADER);
    if !ok { return Short, pos, buf; }
    HeaderSame(rest, buf);
    var namesize := ReadNumber(buf[59..65]);
    var filesize := ReadNumber(buf[65..76]);
    var at := HEADER + namesize;
    ok, part, pos, buf := Take(stream, used, pos, buf, at);
    if !ok { return Short, pos, buf; }
    name := part[HEADER..];
    Parts(stream, used, HEADER, at);
    if IsTrailer(coding, name) { return End, pos, buf; }
    ok, contents, pos, buf := Take(stream, used + at, pos, buf, filesize);
    if !ok { return Short, pos, buf; }
    Parts(stream, used, at, at + filesize);
    r := Next(Member(name, contents), at + filesize);
  }

  lemma Parts(stream: Bytes, used: nat, i: nat, j: nat)
    requires i <= j && used + j <= |stream|
    ensures stream[used..][i..j] == stream[used + i..used + j] == stream[used..used + j][i..]
  {
  }

  /** Reading one card at a time visits the members of the flat stream, wherever cards end. */
  method UnloadArchive(coding: Coding, stream: Bytes) returns (members: Option<seq<Member>>)
    requires Mod(|stream|, CARD) == 0
    ensures members == Parse(coding, stream)
  {
    var pos, buf, visited: seq<Member> := 0, [], [];
    ghost var used := 0;
    assert stream[0..] == stream;
    PrependUnits(visited, Parse(coding, stream));
    while true
      invariant Buffered(stream, used, pos, buf)
      invariant Parse(coding, stream) == Prepend(visited, Parse(coding, stream[used..]))
      decreases |stream| - used
    {
      var r;
      r, pos, buf := ReadMember(coding, stream, used, pos, buf);
      if r.Short? { return None; }
      if r.End? {
        PrependUnits(visited, None);
        return Some(visited);
      }
      assert stream[used..][r.taken..] == stream[used + r.taken..];
      Visit(visited, r.member, Parse(coding, stream[used + r.taken..]));
      visited, used := visited + [r.member], used + r.taken;
    }
  }

  lemma HeaderSame(rest: Bytes, buf: Bytes)
    requires |buf| >= HEADER && |rest| >= HEADER && buf[..HEADER] == rest[..HEADER]
    ensures NameSize(rest) == GetNumber(buf[59..65]) && FileSize(rest) == GetNumber(buf[65..76])
  {
    assert buf[..HEADER][59..65] == buf[59..65] && rest[..HEADER][59..65] == rest[59..65];
    assert buf[..HEADER][65..76] == buf[65..76] && rest[..HEADER][65..76] == rest[65..76];
  }

  lemma PrependUnits(visited: seq<Member>, r: Option<seq<Member>>)
    ensures Prepend([], r) == r && Prepend(visited, Some([])) == Some(visited)
  {
    if r.Some? { assert [] + r.value == r.value; }
    assert visited + [] == visited;
  }

  lemma Visit(visited: seq<Member>, m: Member, r: Option<seq<Member>>)
    ensures Prepend(visited, Prepend([m], r)) == Prepend(visited + [m], r)
  {
    if r.Some? { assert visited + ([m] + r.value) == visited + [m] + r.value; }
  }

}
