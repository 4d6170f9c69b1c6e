/** The member header of section 2.3 of RFC 1952, and where Bootbox/Bridge/GunzipStream.swift
    finds its end. */
module GzipHeader {
  import opened Options

  type Byte = n: nat | n < 256

  // --- the format ---

  /** `rest` are MTIME, XFL and OS. `text` is FTEXT, `reserved` the three high bits of FLG. */
  datatype Header = Header(
    text: bool, reserved: nat, rest: seq<Byte>,
    extra: Option<seq<Byte>>, name: Option<seq<Byte>>, comment: Option<seq<Byte>>, crc: Option<seq<Byte>>)

  ghost predicate WellFormed(h: Header) {
    && h.reserved < 8 && |h.rest| == 6
    && (h.extra.Some? ==> |h.extra.value| < 0x10000)
    && (h.name.Some? ==> 0 !in h.name.value)
    && (h.comment.Some? ==> 0 !in h.comment.value)
    && (h.crc.Some? ==> |h.crc.value| == 2)
  }

  function Bit(b: bool, n: nat): nat { if b then n else 0 }

  function Flags(h: Header): nat {
    Bit(h.text, 1) + Bit(h.crc.Some?, 2) + Bit(h.extra.Some?, 4) + Bit(h.name.Some?, 8) + Bit(h.comment.Some?, 16)
    + 32 * h.reserved
  }

  function EncodeFixed(h: Header): seq<Byte>
    requires h.reserved < 8
  {
    [0x1f, 0x8b, 8, Flags(h)] + h.rest
  }

  function EncodeExtra(x: Option<seq<Byte>>): seq<Byte>
    requires x.Some? ==> |x.value| < 0x10000
  {
    if x.None? then [] else [|x.value| % 256, |x.value| / 256] + x.value
  }

  function EncodeString(x: Option<seq<Byte>>): seq<Byte> { if x.None? then [] else x.value + [0] }

  function EncodeCrc(x: Option<seq<Byte>>): seq<Byte> { if x.None? then [] else x.value }

  ghost function Encode(h: Header): seq<Byte>
    requires WellFormed(h)
  {
    EncodeFixed(h) + EncodeExtra(h.extra) + EncodeString(h.name) + EncodeString(h.comment) + EncodeCrc(h.crc)
  }

  // --- where the parser goes ---

  predicate HasBit(flags: nat, n: nat)
    requires n > 0
  {
    flags / n % 2 == 1
  }

  predicate IsGzip(d: seq<Byte>) { |d| >= 10 && d[0] == 0x1f && d[1] == 0x8b && d[2] == 8 }

  function AfterExtra(d: seq<Byte>, p: nat): Option<nat> {
    if |d| < p + 2 then None
    else
      var x := d[p] as nat + 256 * (d[p + 1] as nat);
      if |d| < p + 2 + x then None else Some(p + 2 + x)
  }

  function AfterString(d: seq<Byte>, p: nat): Option<nat>
    decreases |d| - p
  {
    if |d| <= p then None else if d[p] == 0 then Some(p + 1) else AfterString(d, p + 1)
  }

  function AfterCrc(d: seq<Byte>, p: nat): Option<nat> { if |d| < p + 2 then None else Some(p + 2) }

  /** The position after FEXTRA and FNAME, if they are complete. */
  function NameEnd(d: seq<Byte>): Option<nat>
    requires IsGzip(d)
  {
    var a := if HasBit(d[3], 4) then AfterExtra(d, 10) else Some(10);
    if a.Some? && HasBit(d[3], 8) then AfterString(d, a.value) else a
  }

  /** The position after the header, if it is complete. */
  function HeaderEnd(d: seq<Byte>): Option<nat> {
    if !IsGzip(d) then None
    else
      var b := NameEnd(d);
      var c := if b.Some? && HasBit(d[3], 16) then AfterString(d, b.value) else b;
      if c.Some? && HasBit(d[3], 2) then AfterCrc(d, c.value) else c
  }

  // --- the parser accepts exactly the headers ---

  lemma FlagBits(h: Header)
    requires WellFormed(h)
    ensures Flags(h) < 256
    ensures HasBit(Flags(h), 2) == h.crc.Some? && HasBit(Flags(h), 4) == h.extra.Some?
    ensures HasBit(Flags(h), 8) == h.name.Some? && HasBit(Flags(h), 16) == h.comment.Some?
    ensures Flags(h) / 32 == h.reserved
  {}

  lemma ExtraParsed(pre: seq<Byte>, x: seq<Byte>, post: seq<Byte>)
    requires |x| < 0x10000
    ensures AfterExtra(pre + EncodeExtra(Some(x)) + post, |pre|) == Some(|pre + EncodeExtra(Some(x))|)
  {}

  lemma {:induction false} StringParsed(pre: seq<Byte>, x: seq<Byte>, post: seq<Byte>)
    requires 0 !in x
    ensures AfterString(pre + EncodeString(Some(x)) + post, |pre|) == Some(|pre + EncodeString(Some(x))|)
    decreases |x|
  {
    var d := pre + EncodeString(Some(x)) + post;
    if x == [] {
      assert d[|pre|] == 0;
    } else {
      assert d[|pre|] == x[0];
      var pre' := pre + [x[0]];
      assert pre' + EncodeString(Some(x[1..])) + post == d;
      StringParsed(pre', x[1..], post);
      assert pre' + EncodeString(Some(x[1..])) == pre + EncodeString(Some(x));
    }
  }

  lemma NamesParsed(h: Header, post: seq<Byte>)
    requires WellFormed(h)
    ensures var e := EncodeFixed(h) + EncodeExtra(h.extra) + EncodeString(h.name);
            var d := e + post;
            IsGzip(d) && d[3] == Flags(h) && NameEnd(d) == Some(|e|)
  {
    hide Flags, HasBit, AfterExtra, AfterString;
    FlagBits(h);
    var e0 := EncodeFixed(h);
    var e1 := e0 + EncodeExtra(h.extra);
    var p1 := EncodeString(h.name) + post;
    var d := e1 + EncodeString(h.name) + post;
    assert d == e0 + EncodeExtra(h.extra) + p1;
    assert d[0] == 0x1f && d[1] == 0x8b && d[2] == 8 && d[3] == Flags(h) && |e0| == 10;
    if h.extra.Some? { ExtraParsed(e0, h.extra.value, p1); }
    if h.name.Some? { StringParsed(e1, h.name.value, post); }
  }

  /** Whatever follows it, a header is found and its end is right. */
  lemma HeaderParsed(h: Header, post: seq<Byte>)
    requires WellFormed(h)
    ensures HeaderEnd(Encode(h) + post) == Some(|Encode(h)|)
  {
    hide Flags, HasBit, AfterString, NameEnd, IsGzip;
    FlagBits(h);
    var d := Encode(h) + post;
    var e2 := EncodeFixed(h) + EncodeExtra(h.extra) + EncodeString(h.name);
    var p3 := EncodeCrc(h.crc) + post;
    assert d == e2 + (EncodeString(h.comment) + p3) && d == e2 + EncodeString(h.comment) + p3;
    NamesParsed(h, EncodeString(h.comment) + p3);
    if h.comment.Some? { StringParsed(e2, h.comment.value, p3); }
  }

  lemma ExtraFound(d: seq<Byte>, p: nat) returns (x: seq<Byte>)
    requires AfterExtra(d, p).Some?
    ensures |x| < 0x10000 && p + |EncodeExtra(Some(x))| == AfterExtra(d, p).value
    ensures d[p..AfterExtra(d, p).value] == EncodeExtra(Some(x))
  {
    var q := AfterExtra(d, p).value;
    x := d[p + 2..q];
    assert |x| == d[p] as nat + 256 * (d[p + 1] as nat);
    assert |x| % 256 == d[p] && |x| / 256 == d[p + 1];
    assert d[p..q] == [d[p], d[p + 1]] + x;
  }

  lemma {:induction false} StringFound(d: seq<Byte>, p: nat) returns (x: seq<Byte>)
    requires AfterString(d, p).Some?
    ensures 0 !in x && p + |x| + 1 == AfterString(d, p).value <= |d|
    ensures d[p..AfterString(d, p).value] == x + [0]
    decreases |d| - p
  {
    var q := AfterString(d, p).value;
    if d[p] == 0 {
      x := [];
    } else {
      var y := StringFound(d, p + 1);
      x := [d[p]] + y;
      assert d[p..q] == [d[p]] + d[p + 1..q];
    }
  }

  lemma Halves(f: Byte)
    ensures f == 2 * (f / 2) + f % 2 && f / 2 == 2 * (f / 4) + f / 2 % 2
    ensures f / 4 == 2 * (f / 8) + f / 4 % 2
  {}

  lemma MoreHalves(f: Byte)
    ensures f / 8 == 2 * (f / 16) + f / 8 % 2 && f / 16 == 2 * (f / 32) + f / 16 % 2 && f / 32 < 8
  {}

  lemma FlagsFound(f: Byte) returns (text: bool, reserved: nat)
    ensures reserved < 8
    ensures f == Bit(text, 1) + Bit(HasBit(f, 2), 2) + Bit(HasBit(f, 4), 4) + Bit(HasBit(f, 8), 8) + Bit(HasBit(f, 16), 16)
                 + 32 * reserved
  {
    text, reserved := f % 2 == 1, f / 32;
    Halves(f);
    MoreHalves(f);
    assert Bit(text, 1) == f % 2 && Bit(HasBit(f, 2), 2) == 2 * (f / 2 % 2) && Bit(HasBit(f, 4), 4) == 4 * (f / 4 % 2);
    assert Bit(HasBit(f, 8), 8) == 8 * (f / 8 % 2) && Bit(HasBit(f, 16), 16) == 16 * (f / 16 % 2);
  }

  /** A position is only found behind a complete header. */
  lemma HeaderFound(d: seq<Byte>) returns (h: Header)
    requires HeaderEnd(d).Some?
    ensures WellFormed(h) && Encode(h) <= d && |Encode(h)| == HeaderEnd(d).value
  {
    var f := d[3];
    var text, reserved := FlagsFound(f);
    var p0 := 10;
    var extra: Option<seq<Byte>>, p1: nat := None, p0;
    if HasBit(f, 4) {
      var x := ExtraFound(d, p0);
      extra, p1 := Some(x), AfterExtra(d, p0).value;
    }
    var name: Option<seq<Byte>>, p2: nat := None, p1;
    if HasBit(f, 8) {
      var x := StringFound(d, p1);
      name, p2 := Some(x), AfterString(d, p1).value;
    }
    var comment: Option<seq<Byte>>, p3: nat := None, p2;
    if HasBit(f, 16) {
      var x := StringFound(d, p2);
      comment, p3 := Some(x), AfterString(d, p2).value;
    }
    var crc := if HasBit(f, 2) then Some(d[p3..p3 + 2]) else None;
    var p4 := if HasBit(f, 2) then p3 + 2 else p3;
    h := Header(text, reserved, d[4..10], extra, name, comment, crc);
    assert EncodeFixed(h) == d[..p0];
    assert EncodeExtra(extra) == d[p0..p1] && EncodeString(name) == d[p1..p2];
    assert EncodeString(comment) == d[p2..p3] && EncodeCrc(crc) == d[p3..p4];
    assert Encode(h) == d[..p4] by { Pieces(d, p0, p1, p2, p3, p4); }
  }

  lemma Pieces(d: seq<Byte>, p0: nat, p1: nat, p2: nat, p3: nat, p4: nat)
    requires p0 <= p1 <= p2 <= p3 <= p4 <= |d|
    ensures d[..p0] + d[p0..p1] + d[p1..p2] + d[p2..p3] + d[p3..p4] == d[..p4]
  {}

  /** The parser accepts exactly the data that starts with a header, and the header is unique: how
      the data comes in cannot matter. */
  lemma ParserAcceptsHeaders(d: seq<Byte>)
    ensures HeaderEnd(d).Some? <==> exists h :: WellFormed(h) && Encode(h) <= d
    ensures forall h | WellFormed(h) && Encode(h) <= d :: HeaderEnd(d) == Some(|Encode(h)|)
  {
    if HeaderEnd(d).Some? { var h := HeaderFound(d); }
    forall h | WellFormed(h) && Encode(h) <= d ensures HeaderEnd(d) == Some(|Encode(h)|) {
      assert d == Encode(h) + d[|Encode(h)|..];
      HeaderParsed(h, d[|Encode(h)|..]);
    }
  }

  /** Section 2.3.1.2 of RFC 1952 demands that reserved bits be zero. The parser does not look at
      them; what it accepts is a header in that sense exactly when the fourth byte is below 32. */
  lemma ReservedBitsAccepted(d: seq<Byte>)
    requires HeaderEnd(d).Some?
    ensures (exists h :: WellFormed(h) && Encode(h) <= d && h.reserved == 0) <==> d[3] < 32
  {
    var h := HeaderFound(d);
    FlagBits(h);
    forall g | WellFormed(g) && Encode(g) <= d ensures d[3] == Flags(g) && d[3] / 32 == g.reserved {
      FlagBits(g);
      assert Encode(g)[3] == d[3];
    }
  }

  lemma ReservedBitExample()
    ensures HeaderEnd([0x1f, 0x8b, 8, 0x20, 0, 0, 0, 0, 0, 0]) == Some(10)
  {}
}
