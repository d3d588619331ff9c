/** Network-order integers: the wire format shared by the typed append, prepend, peek and
    read operations of the buffer. Bytes are chars with code below 256. */
module Codec {

  /** One of the eight integer types the buffer can carry. */
  datatype IntType = IntType(width: nat, signed: bool) {
    predicate Valid() {
      width in {1, 2, 4, 8}
    }

    /** The values a C++ variable of this type can hold. */
    predicate Fits(x: int) {
      if signed then -Pow256(width) <= 2 * x < Pow256(width) else 0 <= x < Pow256(width)
    }
  }

  function Pow256(n: nat): (p: int)
    ensures p >= 1
  {
    if n == 0 then 1 else 256 * Pow256(n - 1)
  }

  ghost predicate Octets(s: seq<char>) {
    forall i :: 0 <= i < |s| ==> s[i] as int < 256
  }

  /** The `width` low-order bytes of u, most significant first. */
  function BigEndian(width: nat, u: nat): (s: seq<char>)
    ensures |s| == width
    ensures Octets(s)
  {
    if width == 0 then [] else BigEndian(width - 1, u / 256) + [(u % 256) as char]
  }

  function Number(s: seq<char>): nat {
    if s == [] then 0 else 256 * Number(s[..|s| - 1]) + s[|s| - 1] as int
  }

  lemma PowersOf256()
    ensures Pow256(0) == 1 && Pow256(1) == 0x100 && Pow256(2) == 0x1_0000
    ensures Pow256(4) == 0x1_0000_0000 && Pow256(8) == 0x1_0000_0000_0000_0000
  {
    assert Pow256(3) == 0x100_0000 && Pow256(5) == 0x100_0000_0000;
    assert Pow256(6) == 0x1_0000_0000_0000 && Pow256(7) == 0x100_0000_0000_0000;
  }

  /** Reinterpret as unsigned (a C++ cast), then lay out in network order. */
  function Encode(t: IntType, x: int): (s: seq<char>)
    requires t.Fits(x)
    ensures |s| == t.width
  {
    BigEndian(t.width, if x < 0 then x + Pow256(t.width) else x)
  }

  /** Read in network order, then reinterpret as signed where the type is signed. */
  function Decode(t: IntType, s: seq<char>): int
    requires |s| == t.width
  {
    var u := Number(s);
    if t.signed && 2 * u >= Pow256(t.width) then u - Pow256(t.width) else u
  }

  // ---- which bytes these are ----

  lemma DividedTwice(u: nat, b: nat)
    requires b > 0
    ensures (u / 256) / b == u / (256 * b)
  {
    var q, r := u / (256 * b), u % (256 * b);
    assert u == (256 * b) * q + r == 256 * (b * q) + r;
    assert u / 256 == b * q + r / 256;
    assert r / 256 < b;
    DividesTo(u / 256, b, q, r / 256);
  }

  lemma DividesTo(n: int, d: int, q: int, r: int)
    requires d > 0 && n == d * q + r && 0 <= r < d
    ensures n / d == q
  {
    assert d * (q - n / d) == n % d - r;
    OnlyZero(d, q - n / d);
  }

  lemma OnlyZero(d: int, k: int)
    requires -d < d * k < d
    ensures k == 0
  {
  }

  lemma {:induction false} BigEndianAt(width: nat, u: nat, i: nat)
    requires i < width
    ensures BigEndian(width, u)[i] as int == (u / Pow256(width - 1 - i)) % 256
  {
    if i < width - 1 {
      BigEndianAt(width - 1, u / 256, i);
      DividedTwice(u, Pow256(width - 2 - i));
    }
  }

  lemma {:induction false} PowersAdd(a: nat, b: nat)
    ensures Pow256(a + b) == Pow256(a) * Pow256(b)
  {
    if a > 0 {
      PowersAdd(a - 1, b);
      assert 256 * (Pow256(a - 1) * Pow256(b)) == (256 * Pow256(a - 1)) * Pow256(b);
    }
  }

  /** Adding a multiple of 256 * d to a number leaves its digit at d alone. */
  lemma SameDigit(x: int, d: int, m: int)
    requires d > 0
    ensures ((x + d * (256 * m)) / d) % 256 == (x / d) % 256
  {
    DividesTo(x + d * (256 * m), d, x / d + 256 * m, x % d);
  }

  /** The byte at place i of an encoded value is the digit of the value at that place, to base 256 and
      from the most significant down; that of a negative value is the digit of its two's complement. */
  lemma ByteAt(t: IntType, x: int, i: nat)
    requires t.Fits(x) && i < t.width
    ensures Encode(t, x)[i] as int == (x / Pow256(t.width - 1 - i)) % 256
  {
    if x < 0 {
      var d, m := Pow256(t.width - 1 - i), Pow256(i);
      PowersAdd(t.width - 1 - i, i + 1);
      assert Pow256(i + 1) == 256 * m;
      SameDigit(x, d, m);
      BigEndianAt(t.width, x + Pow256(t.width), i);
    } else {
      BigEndianAt(t.width, x, i);
    }
  }

  lemma BytesAre(t: IntType, x: int)
    requires t.Fits(x)
    ensures forall i :: 0 <= i < t.width ==> Encode(t, x)[i] as int == (x / Pow256(t.width - 1 - i)) % 256
  {
    forall i | 0 <= i < t.width
      ensures Encode(t, x)[i] as int == (x / Pow256(t.width - 1 - i)) % 256
    {
      ByteAt(t, x, i);
    }
  }

  /** Taking off and putting back the last byte. */
  lemma LastByte(u: nat, bound: nat)
    requires u < 256 * bound
    ensures u / 256 < bound && 256 * (u / 256) + u % 256 == u
  {
  }

  lemma {:induction false} NumberOfBigEndian(width: nat, u: nat)
    requires u < Pow256(width)
    ensures Number(BigEndian(width, u)) == u
  {
    if width > 0 {
      LastByte(u, Pow256(width - 1));
      NumberOfBigEndian(width - 1, u / 256);
      var init, last := BigEndian(width - 1, u / 256), (u % 256) as char;
      NumberAppend(init, last);
      assert BigEndian(width, u) == init + [last];
    }
  }

  lemma NumberAppend(init: seq<char>, last: char)
    ensures Number(init + [last]) == 256 * Number(init) + last as int
  {
    assert (init + [last])[..|init|] == init;
  }

  /** A value that fits its type is read back unchanged. */
  lemma DecodeEncode(t: IntType, x: int)
    requires t.Fits(x)
    ensures Decode(t, Encode(t, x)) == x
  {
    var modulus := Pow256(t.width);
    var u := if x < 0 then x + modulus else x;
    NumberOfBigEndian(t.width, u);
    assert Number(Encode(t, x)) == u;
  }

  lemma {:induction false} BigEndianOfNumber(s: seq<char>)
    requires Octets(s)
    ensures Number(s) < Pow256(|s|)
    ensures BigEndian(|s|, Number(s)) == s
  {
    if s != [] {
      var init, last := s[..|s| - 1], s[|s| - 1];
      BigEndianOfNumber(init);
      assert s == init + [last];
      assert Number(s) == 256 * Number(init) + last as int;
    }
  }

  lemma DecodesPrefix(t: IntType, x: int, s: seq<char>)
    requires t.Valid() && t.Fits(x) && Encode(t, x) <= s
    ensures t.width <= |s| && Decode(t, s[..t.width]) == x
  {
    DecodeEncode(t, x);
    assert s[..t.width] == Encode(t, x);
  }

  /** Conversely every byte string of the right length is the image of exactly one value:
      nothing on the wire is unreadable, and reading it determines it. */
  lemma EncodeDecode(t: IntType, s: seq<char>)
    requires |s| == t.width && Octets(s)
    ensures t.Fits(Decode(t, s))
    ensures Encode(t, Decode(t, s)) == s
  {
    BigEndianOfNumber(s);
    var u, x := Number(s), Decode(t, s);
    assert u == if x < 0 then x + Pow256(t.width) else x;
    assert BigEndian(t.width, u) == s;
  }

  // ---- lists of typed values ----

  datatype Typed = Typed(t: IntType, x: int) {
    predicate Valid() {
      t.Valid() && t.Fits(x)
    }
  }

  function EncodeAll(vs: seq<Typed>): seq<char>
    requires forall i :: 0 <= i < |vs| ==> vs[i].Valid()
  {
    if vs == [] then [] else assert vs[0].Valid(); Encode(vs[0].t, vs[0].x) + EncodeAll(vs[1..])
  }

  lemma OneMore(v: Typed, vs: seq<Typed>)
    requires v.Valid() && forall i :: 0 <= i < |vs| ==> vs[i].Valid()
    ensures EncodeAll([v] + vs) == Encode(v.t, v.x) + EncodeAll(vs)
  {
    assert ([v] + vs)[1..] == vs;
  }

  /** Each value lies behind those before it in the list and in front of those after it. */
  lemma {:induction false} InListOrder(a: seq<Typed>, v: Typed, b: seq<Typed>)
    requires v.Valid() && forall w :: w in a || w in b ==> w.Valid()
    ensures EncodeAll(a + ([v] + b)) == EncodeAll(a) + (Encode(v.t, v.x) + EncodeAll(b))
    decreases |a|
  {
    OneMore(v, b);
    if a == [] {
      assert a + ([v] + b) == [v] + b;
      assert EncodeAll(a) + (Encode(v.t, v.x) + EncodeAll(b)) == Encode(v.t, v.x) + EncodeAll(b);
    } else {
      assert a[0] in a && a == [a[0]] + a[1..] && a + ([v] + b) == [a[0]] + (a[1..] + ([v] + b));
      InListOrder(a[1..], v, b);
      OneMore(a[0], a[1..]);
      OneMore(a[0], a[1..] + ([v] + b));
      Regrouped(Encode(a[0].t, a[0].x), EncodeAll(a[1..]), Encode(v.t, v.x) + EncodeAll(b));
    }
  }

  datatype Reading = Reading(values: seq<Typed>, rest: seq<char>) | Short

  /** What reading one value of each type in turn finds, if the bytes last. */
  function DecodeAll(ts: seq<IntType>, s: seq<char>): Reading {
    if ts == [] then
      Reading([], s)
    else if |s| < ts[0].width then
      Short
    else
      match DecodeAll(ts[1..], s[ts[0].width..])
      case Short => Short
      case Reading(vs, rest) => Reading([Typed(ts[0], Decode(ts[0], s[..ts[0].width]))] + vs, rest)
  }

  function Types(vs: seq<Typed>): seq<IntType> {
    seq(|vs|, i requires 0 <= i < |vs| => vs[i].t)
  }

  lemma FirstRoundTrip(v: Typed, more: seq<char>)
    requires v.Valid()
    ensures var all := Encode(v.t, v.x) + more;
            all[v.t.width..] == more && Decode(v.t, all[..v.t.width]) == v.x
  {
    DecodeEncode(v.t, v.x);
    var bytes := Encode(v.t, v.x);
    assert (bytes + more)[..|bytes|] == bytes && (bytes + more)[|bytes|..] == more;
  }

  lemma DecodeNext(t: IntType, ts: seq<IntType>, s: seq<char>, vs: seq<Typed>, rest: seq<char>)
    requires t.width <= |s| && DecodeAll(ts, s[t.width..]) == Reading(vs, rest)
    ensures DecodeAll([t] + ts, s) == Reading([Typed(t, Decode(t, s[..t.width]))] + vs, rest)
  {
    assert ([t] + ts)[1..] == ts;
  }

  /** Reading a list is reading its first value and then the others. */
  lemma DecodeFirst(ts: seq<IntType>, i: nat, s: seq<char>)
    requires i < |ts| && DecodeAll(ts[i..], s).Reading?
    ensures ts[i].width <= |s|
    ensures var all, others := DecodeAll(ts[i..], s), DecodeAll(ts[i + 1..], s[ts[i].width..]);
            && others.Reading? && all.rest == others.rest
            && all.values == [Typed(ts[i], Decode(ts[i], s[..ts[i].width]))] + others.values
  {
    assert ts[i..][0] == ts[i] && ts[i..][1..] == ts[i + 1..];
  }

  /** The first value in front of what can be read already. */
  lemma ReadsOneMore(v: Typed, tail: seq<Typed>, more: seq<char>, rest: seq<char>)
    requires v.Valid() && DecodeAll(Types(tail), more) == Reading(tail, rest)
    ensures DecodeAll([v.t] + Types(tail), Encode(v.t, v.x) + more) == Reading([v] + tail, rest)
  {
    FirstRoundTrip(v, more);
    DecodeNext(v.t, Types(tail), Encode(v.t, v.x) + more, tail, rest);
  }

  lemma TypesApart(vs: seq<Typed>)
    requires |vs| > 0
    ensures vs == [vs[0]] + vs[1..] && Types(vs) == [vs[0].t] + Types(vs[1..])
  {
  }

  lemma Regrouped(a: seq<char>, b: seq<char>, c: seq<char>)
    ensures (a + b) + c == a + (b + c)
  {
  }

  /** Any list of typed values survives the trip and the bytes behind it are untouched. */
  lemma {:induction false} ListRoundTrip(vs: seq<Typed>, rest: seq<char>)
    requires forall i :: 0 <= i < |vs| ==> vs[i].Valid()
    ensures DecodeAll(Types(vs), EncodeAll(vs) + rest) == Reading(vs, rest)
    decreases |vs|
  {
    if |vs| == 0 {
      assert EncodeAll(vs) + rest == rest;
    } else {
      TypesApart(vs);
      assert vs[0].Valid();
      Regrouped(Encode(vs[0].t, vs[0].x), EncodeAll(vs[1..]), rest);
      ListRoundTrip(vs[1..], rest);
      ReadsOneMore(vs[0], vs[1..], EncodeAll(vs[1..]) + rest, rest);
    }
  }
}
