/** A fixed-size chunk store over a named key/value blob cache (the `Storage`
    class of index.js). A logical byte stream is cut into chunks of
    `chunkLength` bytes, addressed by index; when the total length is known,
    the last chunk may be shorter. The cache the class writes through is held
    here as a map from chunk index to the stored bytes. */
module ChunkStore {
  import Decimal

  type Byte = bv8

  datatype Option<T> = None | Some(value: T)

  /** What `Number(x)` gives for the arguments the model admits: not a
      number (also the coercion of a missing value), or a whole number. */
  datatype Number = NaN | Num(value: nat)

  /** The total length of the stream: `Infinity` when it is not bounded. */
  datatype Length = Infinity | Finite(n: nat)

  datatype Error =
    | BadChunkLength
    | Closed
    | WrongLastChunkLength(required: nat)
    | WrongChunkLength(required: nat)
    | NotFound

  datatype Result<T> = Ok(value: T) | Err(error: Error)

  /** The text of each error the store raises. A length error names the
      required length: what follows its fixed prefix reads back as that
      number. */
  function Message(e: Error): (msg: string)
    ensures e.WrongLastChunkLength? || e.WrongChunkLength? ==>
      && LengthPrefix(e) <= msg
      && Decimal.AllDigits(msg[|LengthPrefix(e)|..])
      && Decimal.Value(msg[|LengthPrefix(e)|..]) == e.required
  {
    match e
    case BadChunkLength => "First argument must be a chunk length"
    case Closed => "Storage is closed"
    case WrongLastChunkLength(n) => NumberedMessage(LengthPrefix(e), n)
    case WrongChunkLength(n) => NumberedMessage(LengthPrefix(e), n)
    case NotFound => "Chunk not found"
  }

  /** `prefix + n`, which JavaScript writes with the number in decimal. */
  function NumberedMessage(prefix: string, n: nat): (msg: string)
    ensures prefix <= msg
    ensures Decimal.AllDigits(msg[|prefix|..]) && Decimal.Value(msg[|prefix|..]) == n
  {
    Decimal.ValueOfShow(n);
    assert (prefix + Decimal.Show(n))[|prefix|..] == Decimal.Show(n);
    prefix + Decimal.Show(n)
  }

  function LengthPrefix(e: Error): string
    requires e.WrongLastChunkLength? || e.WrongChunkLength?
  {
    if e.WrongLastChunkLength? then "Last chunk length must be " else "Chunk length must be "
  }

  function Min(a: int, b: int): int {
    if a <= b then a else b
  }

  // ---------------------------------------------------------------------
  // Construction arithmetic

  /** `Math.ceil(a / b)` for whole numbers: the fewest blocks of `b` that
      hold `a`. */
  function CeilDiv(a: nat, b: nat): (q: nat)
    requires b > 0
    ensures (q - 1) * b < a <= q * b
  {
    CeilDivBounds(a, b);
    (a + b - 1) / b
  }

  lemma CeilDivBounds(a: nat, b: nat)
    requires b > 0
    ensures ((a + b - 1) / b - 1) * b < a <= ((a + b - 1) / b) * b
  {
    var q, r := a / b, a % b;
    if r == 0 {
      DivIsUnique(a + b - 1, b, q, b - 1);
    } else {
      assert a + b - 1 == (q + 1) * b + (r - 1);
      DivIsUnique(a + b - 1, b, q + 1, r - 1);
    }
  }

  /** `length % chunkLength || chunkLength`: the last chunk has between 1
      and `chunkLength` bytes and is congruent to the stream's length, so a
      zero remainder makes it a full chunk. */
  function LastChunkLength(length: nat, chunkLength: nat): (m: nat)
    requires chunkLength > 0
    ensures 1 <= m <= chunkLength
    ensures m % chunkLength == length % chunkLength
  {
    if length % chunkLength != 0 then
      DivIsUnique(length % chunkLength, chunkLength, 0, length % chunkLength);
      length % chunkLength
    else
      DivIsUnique(chunkLength, chunkLength, 1, 0);
      chunkLength
  }

  /** `Math.ceil(length / chunkLength) - 1`: the index of the chunk that
      holds the stream's last byte. */
  function LastChunkIndex(length: nat, chunkLength: nat): (k: int)
    requires chunkLength > 0
    ensures length > 0 ==> k >= 0
    ensures k * chunkLength < length <= (k + 1) * chunkLength
  {
    CeilDiv(length, chunkLength) - 1
  }

  lemma DivIsUnique(a: nat, b: nat, q: nat, r: nat)
    requires b > 0 && r < b && a == q * b + r
    ensures a / b == q && a % b == r
  {
    var q', r' := a / b, a % b;
    assert q' * b + r' == a;
    if q' < q {
      assert (q - q') * b >= b by { MulAtLeast(q - q', b); }
      assert false;
    } else if q' > q {
      assert (q' - q) * b >= b by { MulAtLeast(q' - q, b); }
      assert false;
    }
  }

  lemma MulAtLeast(k: nat, b: nat)
    requires k >= 1
    ensures k * b >= b
  {
  }

  /** The last chunk closes the stream: `lastChunkIndex` full chunks and one
      last chunk of between 1 and `chunkLength` bytes make up `length`. */
  lemma {:induction false} LastChunkLayout(length: nat, chunkLength: nat)
    requires length > 0 && chunkLength > 0
    ensures LastChunkIndex(length, chunkLength) >= 0
    ensures LastChunkIndex(length, chunkLength) * chunkLength + LastChunkLength(length, chunkLength) == length
    ensures 1 <= LastChunkLength(length, chunkLength) <= chunkLength
  {
    var c := chunkLength;
    var q, r := length / c, length % c;
    assert length == q * c + r;
    if r == 0 {
      DivIsUnique(length + c - 1, c, q, c - 1);
      assert q >= 1;
      assert (q - 1) * c + c == q * c;
    } else {
      assert length + c - 1 == (q + 1) * c + (r - 1);
      DivIsUnique(length + c - 1, c, q + 1, r - 1);
    }
  }

  /** The layout is determined: any index and last length that close the
      stream as `LastChunkLayout` says are the ones the constructor computes. */
  lemma {:induction false} LastChunkUnique(length: nat, chunkLength: nat, k: nat, m: nat)
    requires chunkLength > 0
    requires k * chunkLength + m == length && 1 <= m <= chunkLength
    ensures LastChunkIndex(length, chunkLength) == k
    ensures LastChunkLength(length, chunkLength) == m
  {
    LastChunkLayout(length, chunkLength);
    var k', m' := LastChunkIndex(length, chunkLength), LastChunkLength(length, chunkLength);
    if m == chunkLength {
      DivIsUnique(length, chunkLength, k + 1, 0);
    } else {
      DivIsUnique(length, chunkLength, k, m);
    }
    if m' == chunkLength {
      DivIsUnique(length, chunkLength, k' + 1, 0);
    } else {
      DivIsUnique(length, chunkLength, k', m');
    }
  }

  /** The fields the constructor sets: `lastChunkLength` and `lastChunkIndex`
      are absent (`undefined` in the source) when the length is unbounded. */
  datatype Config = Config(
    chunkLength: nat,
    length: Length,
    lastChunkLength: Option<nat>,
    lastChunkIndex: Option<nat>)
  {
    /** Chunks are non-empty, and a bounded stream is non-empty and is
        exactly covered by its full chunks and its last chunk. */
    ghost predicate Valid() {
      && chunkLength > 0
      && match length
         case Infinity => lastChunkLength.None? && lastChunkIndex.None?
         case Finite(n) =>
           && n > 0
           && lastChunkLength.Some? && lastChunkIndex.Some?
           && lastChunkIndex.value * chunkLength + lastChunkLength.value == n
           && 1 <= lastChunkLength.value <= chunkLength
    }
  }

  /** The argument handling of the constructor: a chunk length that coerces
      to 0 or NaN is refused; a total length that coerces to 0 or NaN (a
      missing one included) means unbounded. */
  function Configure(chunkLength: Number, length: Number): (r: Result<Config>)
    ensures r.Err? <==> chunkLength == NaN || chunkLength == Num(0)
    ensures r.Err? ==> r.error == BadChunkLength
    ensures r.Ok? ==> r.value.Valid() && r.value.chunkLength == chunkLength.value
    ensures r.Ok? ==> (r.value.length == Infinity <==> length == NaN || length == Num(0))
    ensures r.Ok? && length.Num? && length.value > 0 ==> r.value.length == Finite(length.value)
  {
    if chunkLength == NaN || chunkLength == Num(0) then
      Err(BadChunkLength)
    else
      var c := chunkLength.value;
      if length == NaN || length == Num(0) then
        Ok(Config(c, Infinity, None, None))
      else
        var n := length.value;
        LastChunkLayout(n, c);
        Ok(Config(c, Finite(n), Some(LastChunkLength(n, c)), Some(LastChunkIndex(n, c) as nat)))
  }

  // ---------------------------------------------------------------------
  // Write validation

  /** The exact byte count `put` demands at `index`: the last chunk's length
      at `lastChunkIndex`, the full chunk length at every other index. Read
      against the stream, this is the size of chunk `index` while the index
      lies inside the stream, and the full length past its end. */
  function RequiredLength(cfg: Config, index: int): (r: nat)
    requires cfg.Valid()
    ensures r > 0
    ensures cfg.length == Infinity ==> r == cfg.chunkLength
    ensures cfg.length.Finite? && 0 <= index && index * cfg.chunkLength < cfg.length.n ==>
              r == Min(cfg.chunkLength, cfg.length.n - index * cfg.chunkLength)
    ensures cfg.length.Finite? && (index < 0 || index * cfg.chunkLength >= cfg.length.n) ==>
              r == cfg.chunkLength
  {
    ChunkSizeAt(cfg, index);
    if cfg.lastChunkIndex == Some(index) then cfg.lastChunkLength.value else cfg.chunkLength
  }

  lemma ChunkSizeAt(cfg: Config, index: int)
    requires cfg.Valid()
    ensures cfg.length.Finite? ==>
      var c, n, k := cfg.chunkLength, cfg.length.n, cfg.lastChunkIndex.value;
      && (0 <= index < k ==> n - index * c > c)
      && (index == k ==> n - index * c == cfg.lastChunkLength.value)
      && (index > k ==> index * c >= n)
  {
    if cfg.length.Infinity? {
      return;
    }
    var c, n, k, m := cfg.chunkLength, cfg.length.n, cfg.lastChunkIndex.value, cfg.lastChunkLength.value;
    if 0 <= index < k {
      assert (k - index) * c >= c by { MulAtLeast(k - index, c); }
      assert n - index * c == (k - index) * c + m;
    } else if index > k {
      assert (index - k) * c >= c by { MulAtLeast(index - k, c); }
      assert index * c == (index - k) * c + k * c;
    }
  }

  /** The error `put` reports for a payload of the wrong length. */
  function LengthError(cfg: Config, index: int): (e: Error)
    requires cfg.Valid()
    ensures e.WrongLastChunkLength? <==> cfg.lastChunkIndex == Some(index)
    ensures e.WrongChunkLength? <==> cfg.lastChunkIndex != Some(index)
    ensures e.required == RequiredLength(cfg, index)
  {
    if cfg.lastChunkIndex == Some(index) then WrongLastChunkLength(cfg.lastChunkLength.value)
    else WrongChunkLength(cfg.chunkLength)
  }

  /** Every stored chunk has the length `put` demands for its index. */
  ghost predicate WellSized(cfg: Config, cache: map<int, seq<Byte>>)
    requires cfg.Valid()
  {
    forall i :: i in cache ==> |cache[i]| == RequiredLength(cfg, i)
  }

  // ---------------------------------------------------------------------
  // Range read

  /** The `opts` argument of `get`; a missing property is `None`. */
  datatype ReadOpts = ReadOpts(offset: Option<nat>, length: Option<nat>)

  /** `opts.offset || 0` */
  function RangeOffset(o: ReadOpts): (k: nat)
    ensures k == 0 <==> o.offset == None || o.offset == Some(0)
  {
    if o.offset.Some? then o.offset.value else 0
  }

  /** `opts.length || (buf.length - offset)`: negative when the offset lies
      past the end of the buffer and no length is given. */
  function RangeLength(o: ReadOpts, size: nat): (len: int)
    ensures len < 0 ==> RangeOffset(o) > size
    ensures len + RangeOffset(o) >= 0
  {
    if o.length.Some? && o.length.value != 0 then o.length.value else size - RangeOffset(o)
  }

  /** `Buffer.prototype.slice(start, end)` for non-negative bounds: both
      bounds are clamped to the buffer, and an empty range gives no bytes. */
  function Slice(buf: seq<Byte>, start: nat, end: nat): (r: seq<Byte>)
    ensures |r| == if start < Min(end, |buf|) then Min(end, |buf|) - start else 0
    ensures forall j :: 0 <= j < |r| ==> r[j] == buf[start + j]
  {
    var s, e := Min(start, |buf|), Min(end, |buf|);
    if s < e then buf[s..e] else []
  }

  /** What `get` hands back for a stored payload `buf`: the whole payload
      without `opts`; otherwise the bytes from `offset` on (0 when absent),
      as many as asked for (all the rest when the length is absent or 0) and
      no more than there are. The source returns the payload itself when
      `offset` is exactly 0 and the range runs to the end, and slices it
      otherwise; both give these bytes. */
  function ReadRange(buf: seq<Byte>, opts: Option<ReadOpts>): (r: seq<Byte>)
    ensures opts.None? ==> r == buf
    ensures opts.Some? ==>
      var k := RangeOffset(opts.value);
      var want := if opts.value.length.Some? && opts.value.length.value != 0 then opts.value.length.value else |buf|;
      r == if k <= |buf| then buf[k..Min(k + want, |buf|)] else []
  {
    match opts
    case None => buf
    case Some(o) =>
      var offset := RangeOffset(o);
      var len := RangeLength(o, |buf|);
      if o.offset == Some(0) && len == |buf| - offset then buf
      else Slice(buf, offset, len + offset)
  }

  /** Sub-range correctness: a range inside the payload gives exactly the
      bytes `[offset, offset + length)`. */
  lemma ReadRangeInside(buf: seq<Byte>, offset: nat, length: nat)
    requires 0 < length && offset + length <= |buf|
    ensures ReadRange(buf, Some(ReadOpts(Some(offset), Some(length)))) == buf[offset..offset + length]
  {
  }

  /** A range from 0 that runs to the end, given as `offset: 0` or no offset
      and as the full length, 0 or no length, reads the same bytes as a read
      without `opts`. */
  lemma FullRangeIsWholeChunk(buf: seq<Byte>, o: ReadOpts)
    requires o.offset == None || o.offset == Some(0)
    requires o.length == None || o.length == Some(0) || o.length == Some(|buf|)
    ensures ReadRange(buf, Some(o)) == ReadRange(buf, None) == buf
  {
  }

  // ---------------------------------------------------------------------
  // The store

  /** A set of keys is empty or has a member to pick. */
  lemma EmptyOrMember(keys: set<int>)
    ensures keys == {} || exists key :: key in keys
  {
    if forall key :: key !in keys {
      assert keys == {};
    }
  }

  class Storage {
    const config: Config
    /** Set once by `close` or `destroy`; never cleared. */
    var closed: bool
    /** The named cache: chunk index to stored bytes. */
    var cache: map<int, seq<Byte>>

    ghost predicate Valid() {
      config.Valid()
    }

    /** A store over a named cache that already holds `existing`. */
    constructor (config: Config, existing: map<int, seq<Byte>>)
      requires config.Valid()
      ensures Valid() && this.config == config
      ensures !closed && cache == existing
    {
      this.config := config;
      closed := false;
      cache := existing;
    }

    /** `new Storage(chunkLength, { length })`: throws, here returns an
        error, for a chunk length of 0 or NaN. */
    static method Create(chunkLength: Number, length: Number, existing: map<int, seq<Byte>>)
      returns (r: Result<Storage>)
      ensures r.Err? <==> chunkLength == NaN || chunkLength == Num(0)
      ensures r.Err? ==> r.error == BadChunkLength
      ensures r.Ok? ==> && fresh(r.value) && r.value.Valid()
                        && Configure(chunkLength, length) == Ok(r.value.config)
                        && !r.value.closed && r.value.cache == existing
    {
      var cfg := Configure(chunkLength, length);
      if cfg.Err? {
        return Err(cfg.error);
      }
      var s := new Storage(cfg.value, existing);
      r := Ok(s);
    }

    /** Stores `buf` as chunk `index` after checking, in this order, that
        the store is open and that `buf` has the length the index demands. */
    method Put(index: int, buf: seq<Byte>) returns (r: Result<()>)
      requires Valid()
      modifies this`cache
      ensures closed ==> r == Err(Closed)
      ensures !closed ==> (r.Ok? <==> |buf| == RequiredLength(config, index))
      ensures !closed && |buf| != RequiredLength(config, index) ==> r == Err(LengthError(config, index))
      ensures cache == if r.Ok? then old(cache)[index := buf] else old(cache)
      ensures old(WellSized(config, cache)) ==> WellSized(config, cache)
    {
      if closed {
        return Err(Closed);
      }
      var isLastChunk := config.lastChunkIndex == Some(index);
      if isLastChunk && |buf| != config.lastChunkLength.value {
        return Err(WrongLastChunkLength(config.lastChunkLength.value));
      }
      if !isLastChunk && |buf| != config.chunkLength {
        return Err(WrongChunkLength(config.chunkLength));
      }
      cache := cache[index := buf];
      r := Ok(());
    }

    /** Reads chunk `index`, whole or the range `opts` names. */
    method Get(index: int, opts: Option<ReadOpts>) returns (r: Result<seq<Byte>>)
      ensures closed ==> r == Err(Closed)
      ensures !closed && index !in cache ==> r == Err(NotFound)
      ensures !closed && index in cache ==> r == Ok(ReadRange(cache[index], opts))
    {
      if closed {
        return Err(Closed);
      }
      if index !in cache {
        return Err(NotFound);
      }
      r := Ok(ReadRange(cache[index], opts));
    }

    /** Closes the store, leaving the cache as it is. */
    method Close() returns (r: Result<()>)
      modifies this`closed
      ensures r == if old(closed) then Err(Closed) else Ok(())
      ensures closed
    {
      if closed {
        return Err(Closed);
      }
      closed := true;
      r := Ok(());
    }

    /** Closes the store and deletes every key of its cache. */
    method Destroy() returns (r: Result<()>)
      modifies this`closed, this`cache
      ensures r == if old(closed) then Err(Closed) else Ok(())
      ensures closed
      ensures cache == if old(closed) then old(cache) else map[]
    {
      if closed {
        return Err(Closed);
      }
      closed := true;
      var keys := cache.Keys;
      while keys != {}
        invariant closed && cache.Keys == keys
        decreases keys
      {
        EmptyOrMember(keys);
        var key :| key in keys;
        cache := cache - {key};
        keys := keys - {key};
      }
      r := Ok(());
    }
  }

  /** A client of the contracts: chunks of 4 bytes over a 10-byte stream. */
  method Example() {
    var created := Storage.Create(Num(4), Num(10), map[]);
    var s := created.value;
    LastChunkUnique(10, 4, 2, 2);
    assert s.config.lastChunkIndex == Some(2) && s.config.lastChunkLength == Some(2);

    var r := s.Put(0, [0, 1, 2, 3]);
    assert r.Ok?;
    r := s.Put(1, [4, 5, 6, 7]);
    assert r.Ok?;
    r := s.Put(2, [8, 9]);
    assert r.Ok?;
    r := s.Put(2, [8, 9, 10, 11]);
    assert r == Err(WrongLastChunkLength(2));

    var g := s.Get(2, None);
    assert g == Ok([8, 9]);
    var chunk1: seq<Byte> := [4, 5, 6, 7];
    assert s.cache[1] == chunk1;
    g := s.Get(1, Some(ReadOpts(Some(1), Some(2))));
    ReadRangeInside(chunk1, 1, 2);
    assert chunk1[1..3] == [5, 6];
    assert g == Ok([5, 6]);
    g := s.Get(3, None);
    assert g == Err(NotFound);

    var c := s.Close();
    assert c.Ok?;
    r := s.Put(0, [0, 1, 2, 3]);
    assert r == Err(Closed);
    c := s.Destroy();
    assert c == Err(Closed);
  }
}
