/** The growable I/O buffer: one array, a reader index and a writer index. Every operation
    is specified by what it does to the readable bytes as a plain sequence. */
module ByteBuffer {
  import opened Bounds
  import opened Codec

  const CHEAP_PREPEND: nat := 8
  const INITIAL_SIZE: nat := 1024
  const EXTRA_SIZE: nat := 65536

  /** k is the first index of s at or after `from` where CR LF starts. */
  ghost predicate IsFirstCRLF(s: seq<char>, from: nat, k: nat) {
    && from <= k && k + 1 < |s| && s[k] == '\r' && s[k + 1] == '\n'
    && forall j :: from <= j < k ==> !(s[j] == '\r' && s[j + 1] == '\n')
  }

  lemma RegroupedList(a: seq<Typed>, v: Typed, b: seq<Typed>)
    ensures a + ([v] + b) == (a + [v]) + b
  {
  }

  /** vs has been read, and reading the types from i on makes it the whole of goal. */
  ghost predicate StillToRead(ts: seq<IntType>, i: nat, s: seq<char>, vs: seq<Typed>, goal: Reading) {
    && i <= |ts| && goal.Reading? && DecodeAll(ts[i..], s).Reading?
    && vs + DecodeAll(ts[i..], s).values == goal.values && DecodeAll(ts[i..], s).rest == goal.rest
  }

  lemma StartsReading(ts: seq<IntType>, s: seq<char>)
    requires DecodeAll(ts, s).Reading?
    ensures StillToRead(ts, 0, s, [], DecodeAll(ts, s))
  {
    assert ts[0..] == ts && [] + DecodeAll(ts, s).values == DecodeAll(ts, s).values;
  }

  lemma OneRead(ts: seq<IntType>, i: nat, s: seq<char>, s': seq<char>, vs: seq<Typed>, v: Typed, goal: Reading)
    requires i < |ts| && StillToRead(ts, i, s, vs, goal) && DecodeAll(ts[i + 1..], s').Reading?
    requires DecodeAll(ts[i..], s).values == [v] + DecodeAll(ts[i + 1..], s').values
    requires DecodeAll(ts[i..], s).rest == DecodeAll(ts[i + 1..], s').rest
    ensures StillToRead(ts, i + 1, s', vs + [v], goal)
  {
    RegroupedList(vs, v, DecodeAll(ts[i + 1..], s').values);
  }

  lemma EndsReading(ts: seq<IntType>, s: seq<char>, vs: seq<Typed>, goal: Reading)
    requires StillToRead(ts, |ts|, s, vs, goal)
    ensures goal == Reading(vs, s)
  {
    assert ts[|ts|..] == [];
    assert vs + [] == vs;
  }

  lemma Glue(a: seq<char>, b: seq<char>, n: nat)
    requires n <= |b|
    ensures (a + b[..n]) + b[n..] == a + b
  {
  }

  lemma PutInFront(was: seq<char>, now: seq<char>, data: seq<char>, start: nat, end: nat)
    requires |was| == |now| && start + |data| <= end <= |now|
    requires forall k :: start <= k < start + |data| ==> now[k] == data[k - start]
    requires forall k :: start + |data| <= k < end ==> now[k] == was[k]
    ensures now[start..end] == data + was[start + |data|..end]
  {
  }

  /** What the kernel answered to a scatter read. */
  datatype ReadResult = Failed(errno: int) | Delivered(bytes: seq<char>)

  class Buffer {
    var storage: array<char>
    var reader: nat
    var writer: nat

    // History, for the bound on storage: the size asked for at construction, the most
    // readable bytes ever held or asked room for, and the longest single request for room.
    ghost var peak: nat
    ghost var largest: nat
    ghost var floor: nat

    ghost predicate Valid()
      reads this, storage
    {
      && reader <= writer <= storage.Length
      && writer - reader <= peak
      && CHEAP_PREPEND <= storage.Length <= Max(floor + CHEAP_PREPEND, peak + largest + 7)
    }

    ghost function Content(): seq<char>
      requires Valid()
      reads this, storage
    {
      storage[reader..writer]
    }

    constructor (initialSize: nat)
      ensures Valid() && fresh(storage) && Content() == []
      ensures storage.Length == initialSize + CHEAP_PREPEND && reader == CHEAP_PREPEND
      ensures floor == initialSize && peak == 0 && largest == 0
    {
      storage := new char[CHEAP_PREPEND + initialSize];
      reader, writer := CHEAP_PREPEND, CHEAP_PREPEND;
      floor, peak, largest := initialSize, 0, 0;
    }

    function ReadableBytes(): (n: nat)
      requires Valid()
      reads this, storage
      ensures n == |Content()|
    {
      writer - reader
    }

    function WritableBytes(): nat
      requires Valid()
      reads this, storage
    {
      storage.Length - writer
    }

    method Swap(rhs: Buffer)
      requires Valid() && rhs.Valid()
      modifies this, rhs
      ensures Valid() && rhs.Valid()
      ensures storage == old(rhs.storage) && rhs.storage == old(storage)
      ensures Content() == old(rhs.Content()) && rhs.Content() == old(Content())
    {
      storage, rhs.storage := rhs.storage, storage;
      reader, rhs.reader := rhs.reader, reader;
      writer, rhs.writer := rhs.writer, writer;
      floor, rhs.floor := rhs.floor, floor;
      peak, rhs.peak := rhs.peak, peak;
      largest, rhs.largest := rhs.largest, largest;
    }

    method RetrieveAll()
      requires Valid()
      modifies this`reader, this`writer
      ensures Valid() && Content() == []
      ensures reader == CHEAP_PREPEND
    {
      reader, writer := CHEAP_PREPEND, CHEAP_PREPEND;
    }

    method Retrieve(len: nat)
      requires Valid() && len <= |Content()|
      modifies this`reader, this`writer
      ensures Valid() && Content() == old(Content())[len..]
      ensures reader == if len < |old(Content())| then old(reader) + len else CHEAP_PREPEND
    {
      if len < ReadableBytes() {
        reader := reader + len;
      } else {
        RetrieveAll();
      }
    }

    method RetrieveAsString(len: nat) returns (s: seq<char>)
      requires Valid() && len <= |Content()|
      modifies this`reader, this`writer
      ensures Valid() && s + Content() == old(Content()) && |s| == len
    {
      s := storage[reader..reader + len];
      Retrieve(len);
    }

    method RetrieveAllAsString() returns (s: seq<char>)
      requires Valid()
      modifies this`reader, this`writer
      ensures Valid() && s == old(Content()) && Content() == []
    {
      s := RetrieveAsString(ReadableBytes());
    }

    method Unwrite(len: nat)
      requires Valid() && len <= |Content()|
      modifies this`writer
      ensures Valid() && Content() == old(Content()[..|Content()| - len])
    {
      writer := writer - len;
    }

    method HasWritten(len: nat)
      requires Valid() && len <= WritableBytes()
      modifies this`writer, this`peak
      ensures Valid() && Content() == old(Content() + storage[writer..writer + len])
      ensures writer == old(writer) + len && peak == Max(old(peak), |Content()|)
    {
      writer := writer + len;
      peak := Max(peak, writer - reader);
    }

    /** Move the readable bytes down to the cheap-prepend mark. Source and target overlap, so
        the copy must run upwards. */
    method Slide()
      requires Valid() && CHEAP_PREPEND < reader
      modifies this`reader, this`writer, storage
      ensures Valid() && Content() == old(Content())
      ensures reader == CHEAP_PREPEND
    {
      ghost var content := Content();
      var readable := ReadableBytes();
      var k := 0;
      while k < readable
        modifies storage
        invariant k <= readable
        invariant forall i :: 0 <= i < k ==> storage[CHEAP_PREPEND + i] == content[i]
        invariant forall i :: k <= i < readable ==> storage[reader + i] == content[i]
      {
        storage[CHEAP_PREPEND + k] := storage[reader + k];
        k := k + 1;
      }
      assert storage[CHEAP_PREPEND..CHEAP_PREPEND + readable] == content;
      reader := CHEAP_PREPEND;
      writer := reader + readable;
    }

    method Grow(size: nat)
      requires Valid() && storage.Length < size <= Max(floor + CHEAP_PREPEND, peak + largest + 7)
      modifies this`storage
      ensures Valid() && fresh(storage) && storage.Length == size
      ensures Content() == old(Content())
    {
      var bigger := new char[size];
      forall i | 0 <= i < storage.Length {
        bigger[i] := storage[i];
      }
      assert bigger[reader..writer] == storage[reader..writer];
      storage := bigger;
    }

    /** Sliding is only chosen when the content really has room to move: the source's own
        assertion on the reader index is the precondition of Slide. */
    method MakeSpace(len: nat)
      requires Valid() && WritableBytes() < len
      requires |Content()| + len <= peak && len <= largest
      modifies this`reader, this`writer, this`storage, storage
      ensures Valid() && Content() == old(Content())
      ensures WritableBytes() >= len
      ensures storage == old(storage) || fresh(storage)
    {
      if WritableBytes() + reader < len + CHEAP_PREPEND {
        Grow(writer + len);
      } else {
        Slide();
      }
    }

    method EnsureWritableBytes(len: nat)
      requires Valid()
      modifies this, storage
      ensures Valid() && Content() == old(Content())
      ensures WritableBytes() >= len
      ensures storage == old(storage) || fresh(storage)
      ensures floor == old(floor)
      ensures peak == Max(old(peak), |Content()| + len) && largest == Max(old(largest), len)
    {
      peak := Max(peak, ReadableBytes() + len);
      largest := Max(largest, len);
      if WritableBytes() < len {
        MakeSpace(len);
      }
    }

    /** Bytes into the writable tail, not yet part of the content. */
    method CopyBehind(data: seq<char>)
      requires Valid() && |data| <= WritableBytes()
      modifies storage
      ensures Valid() && Content() == old(Content())
      ensures storage[writer..writer + |data|] == data
    {
      ghost var content := Content();
      var k := 0;
      while k < |data|
        modifies storage
        invariant k <= |data|
        invariant storage[writer..writer + k] == data[..k]
        invariant storage[reader..writer] == content
      {
        storage[writer + k] := data[k];
        k := k + 1;
      }
    }

    method Append(data: seq<char>)
      requires Valid()
      modifies this, storage
      ensures Valid() && Content() == old(Content()) + data
      ensures storage == old(storage) || fresh(storage)
      ensures floor == old(floor)
      ensures peak == Max(old(peak), |Content()|) && largest == Max(old(largest), |data|)
    {
      EnsureWritableBytes(|data|);
      CopyBehind(data);
      HasWritten(|data|);
    }

    method Prepend(data: seq<char>)
      requires Valid() && |data| <= reader
      modifies this`reader, this`peak, storage
      ensures Valid() && Content() == data + old(Content())
    {
      reader := reader - |data|;
      forall k | reader <= k < reader + |data| {
        storage[k] := data[k - reader];
      }
      peak := Max(peak, writer - reader);
      PutInFront(old(storage[..]), storage[..], data, reader, writer);
    }

    // ---- typed values in network order ----

    method AppendInt(t: IntType, x: int)
      requires Valid() && t.Valid() && t.Fits(x)
      modifies this, storage
      ensures Valid() && Content() == old(Content()) + Encode(t, x)
      ensures forall i :: 0 <= i < t.width ==>
                Content()[old(|Content()|)..][i] as int == (x / Pow256(t.width - 1 - i)) % 256
      ensures storage == old(storage) || fresh(storage)
    {
      BytesAre(t, x);
      Append(Encode(t, x));
      assert Content()[old(|Content()|)..] == Encode(t, x);
    }

    method PrependInt(t: IntType, x: int)
      requires Valid() && t.Valid() && t.Fits(x) && t.width <= reader
      modifies this`reader, this`peak, storage
      ensures Valid() && Content() == Encode(t, x) + old(Content())
      ensures forall i :: 0 <= i < t.width ==> Content()[i] as int == (x / Pow256(t.width - 1 - i)) % 256
    {
      BytesAre(t, x);
      Prepend(Encode(t, x));
    }

    function PeekInt(t: IntType): (x: int)
      requires Valid() && t.Valid() && t.width <= |Content()|
      reads this, storage
      ensures forall y :: t.Fits(y) && Encode(t, y) <= Content() ==> x == y
    {
      assert storage[reader..reader + t.width] == Content()[..t.width];
      assert forall y :: t.Fits(y) && Encode(t, y) <= Content() ==> Decode(t, Content()[..t.width]) == y by {
        forall y | t.Fits(y) && Encode(t, y) <= Content()
          ensures Decode(t, Content()[..t.width]) == y
        {
          DecodesPrefix(t, y, Content());
        }
      }
      Decode(t, storage[reader..reader + t.width])
    }

    method ReadInt(t: IntType) returns (x: int)
      requires Valid() && t.Valid() && t.width <= |Content()|
      modifies this`reader, this`writer
      ensures Valid() && x == Decode(t, old(Content())[..t.width])
      ensures Content() == old(Content())[t.width..]
    {
      assert Content()[..t.width] == storage[reader..reader + t.width];
      x := PeekInt(t);
      Retrieve(t.width);
    }

    /** Values appended one after the other. */
    method AppendList(vs: seq<Typed>)
      requires Valid() && forall i :: 0 <= i < |vs| ==> vs[i].Valid()
      modifies this, storage
      ensures Valid() && Content() == old(Content()) + EncodeAll(vs)
      ensures storage == old(storage) || fresh(storage)
    {
      ghost var before := Content();
      var i := 0;
      while i < |vs|
        invariant i <= |vs| && Valid() && (storage == old(storage) || fresh(storage))
        invariant Content() + EncodeAll(vs[i..]) == before + EncodeAll(vs)
      {
        assert vs[i].Valid() && vs[i..][0] == vs[i] && vs[i..][1..] == vs[i + 1..];
        Regrouped(Content(), Encode(vs[i].t, vs[i].x), EncodeAll(vs[i + 1..]));
        AppendInt(vs[i].t, vs[i].x);
        i := i + 1;
      }
    }

    /** The next value of a list. */
    method ReadNext(ts: seq<IntType>, i: nat) returns (v: Typed)
      requires Valid() && i < |ts| && ts[i].Valid() && DecodeAll(ts[i..], Content()).Reading?
      modifies this`reader, this`writer
      ensures Valid() && DecodeAll(ts[i + 1..], Content()).Reading?
      ensures DecodeAll(ts[i..], old(Content())).values == [v] + DecodeAll(ts[i + 1..], Content()).values
      ensures DecodeAll(ts[i..], old(Content())).rest == DecodeAll(ts[i + 1..], Content()).rest
    {
      DecodeFirst(ts, i, Content());
      var x := ReadInt(ts[i]);
      v := Typed(ts[i], x);
    }

    /** One value of each type in turn, as far as the bytes are known to last. */
    method ReadList(ts: seq<IntType>) returns (vs: seq<Typed>)
      requires Valid() && forall i :: 0 <= i < |ts| ==> ts[i].Valid()
      requires DecodeAll(ts, Content()).Reading?
      modifies this`reader, this`writer
      ensures Valid() && Reading(vs, Content()) == DecodeAll(ts, old(Content()))
    {
      vs := [];
      ghost var goal := DecodeAll(ts, Content());
      StartsReading(ts, Content());
      var i := 0;
      while i < |ts|
        invariant i <= |ts| && Valid() && StillToRead(ts, i, Content(), vs, goal)
      {
        ghost var before := Content();
        var v := ReadNext(ts, i);
        OneRead(ts, i, before, Content(), vs, v, goal);
        vs := vs + [v];
        i := i + 1;
      }
      EndsReading(ts, Content(), vs, goal);
    }

    /** What was appended as a list is read back as that list, and the bytes behind it stay. */
    method ReadBack(vs: seq<Typed>, ghost more: seq<char>) returns (us: seq<Typed>)
      requires Valid() && forall i :: 0 <= i < |vs| ==> vs[i].Valid()
      requires Content() == EncodeAll(vs) + more
      modifies this`reader, this`writer
      ensures Valid() && us == vs && Content() == more
    {
      ListRoundTrip(vs, more);
      us := ReadList(Types(vs));
    }

    // ---- searching ----

    /** Index in Content() of the first CR LF pair, or -1. */
    method FindCRLF(start: nat) returns (k: int)
      requires Valid() && start <= |Content()|
      ensures k >= 0 ==> IsFirstCRLF(Content(), start, k)
      ensures k < 0 ==> k == -1 && forall j {:trigger Content()[j]} :: start <= j < |Content()| - 1 ==>
                !(Content()[j] == '\r' && Content()[j + 1] == '\n')
    {
      ghost var s := Content();
      k := start;
      while k + 1 < ReadableBytes()
        invariant start <= k <= |s|
        invariant forall j {:trigger s[j]} :: start <= j < k && j + 1 < |s| ==> !(s[j] == '\r' && s[j + 1] == '\n')
      {
        if storage[reader + k] == '\r' && storage[reader + k + 1] == '\n' {
          return;
        }
        k := k + 1;
      }
      k := -1;
    }

    // ---- scatter read ----

    /** The most a read may deliver: the writable tail, plus the side buffer when offered. */
    function Offered(): nat
      requires Valid()
      reads this, storage
    {
      WritableBytes() + if WritableBytes() < EXTRA_SIZE then EXTRA_SIZE else 0
    }

    /** Kernel side of the scatter read: fill the writable tail first, then the side buffer. */
    method Scatter(bytes: seq<char>) returns (extra: seq<char>)
      requires Valid() && |bytes| <= Offered()
      modifies storage
      ensures Valid() && Content() == old(Content())
      ensures var k := Min(|bytes|, WritableBytes());
              storage[writer..writer + k] == bytes[..k] && extra == bytes[k..]
    {
      var k := Min(|bytes|, WritableBytes());
      CopyBehind(bytes[..k]);
      extra := bytes[k..];
    }

    /** What came back from readv: as much as fits is written already, the rest is appended. */
    method Account(bytes: seq<char>, extra: seq<char>)
      requires Valid()
      requires var k := Min(|bytes|, WritableBytes());
               storage[writer..writer + k] == bytes[..k] && extra == bytes[k..]
      modifies this, storage
      ensures Valid() && (storage == old(storage) || fresh(storage))
      ensures Content() == old(Content()) + bytes
    {
      var n, writable := |bytes|, WritableBytes();
      if n <= writable {
        assert bytes[..n] == bytes;
        HasWritten(n);
      } else {
        HasWritten(writable);
        Glue(old(Content()), bytes, writable);
        Append(extra);
      }
    }

    method ReadFd(r: ReadResult) returns (n: int)
      requires Valid() && (r.Delivered? ==> |r.bytes| <= Offered())
      modifies this, storage
      ensures Valid() && (storage == old(storage) || fresh(storage))
      ensures r.Failed? ==> n == -1 && Content() == old(Content())
      ensures r.Delivered? ==> n == |r.bytes| && Content() == old(Content()) + r.bytes
      ensures n > old(WritableBytes()) ==> old(WritableBytes()) < EXTRA_SIZE
      ensures old(WritableBytes()) < EXTRA_SIZE ==> n <= 131071
    {
      if r.Failed? {
        return -1;
      }
      var extra := Scatter(r.bytes);
      Account(r.bytes, extra);
      n := |r.bytes|;
    }
  }
}
