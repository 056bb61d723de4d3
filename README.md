# cache-storage-chunk-store, modelled in Dafny

`Storage` (index.js) is a chunk store. It treats one logical byte stream as a
series of chunks. Each chunk has `chunkLength` bytes and is addressed by an index.
The stream's total `length` may be known, and then the last chunk may be
shorter. The chunk bytes live in a named browser cache under the key
`'/index/' + index`.

This model has two modules:

- `ChunkStore` (chunk_store.dfy) holds the following:
  - The constructor's argument handling and last-chunk arithmetic (`Configure`,
    `LastChunkLength`, `LastChunkIndex`).
  - The length rule that `put` enforces (`RequiredLength`, `LengthError`).
  - The offset/length/slice computation of `get` (`ReadRange`).
  - The class `Storage`. It has the constructor's fields as a `const config`,
    the `closed` flag, and the cache as a `map<int, seq<bv8>>` from chunk index
    to stored bytes. Its methods `Put`, `Get`, `Close` and `Destroy` follow the
    source's branches in the source's order, and each returns a `Result` in
    place of the callback.
- `Decimal` (decimal.dfy) is how JavaScript writes a whole number into a string.
  The length errors use it ("Chunk length must be 4"). It comes with its inverse.

`Number(x)` becomes the datatype `Number = NaN | Num(nat)`. A missing total
length is `Number(undefined)`, which is `NaN`. An unbounded store has
`length == Infinity`, and its `lastChunkIndex` and `lastChunkLength` are `None`,
the model of `undefined`. Chunk indices are whole numbers (`int`), so for an
unbounded store `index === this.lastChunkIndex` never holds for any index the
model admits. The cache is persistent and shared by name, so a
new store starts from whatever the named cache already holds (`existing`).

Three behaviours of index.js that a reader may not expect, which the model keeps:

- `put` does not refuse an index past `lastChunkIndex` (index.js:27-34). It
  needs a full `chunkLength` payload there, like at any index other than the
  last. `RequiredLength` states this for indices past the end of the stream.
- The constructor refuses a chunk length only when it coerces to 0 or NaN
  (index.js:11-12). Negative values are truthy and pass that check. The model
  admits only non-negative lengths (see below).
- When `offset` is exactly 0 and the range runs to the end, `get` returns the
  payload itself (index.js:78-79). Every other range goes through `slice`
  (index.js:81), which can also return the whole payload.
  `FullRangeIsWholeChunk` shows that both paths give the same bytes.

## Model

| member | source | states |
|---|---|---|
| `ChunkStore.Configure` | index.js:11-21 | construction fails, with "First argument must be a chunk length", exactly when the chunk length is 0 or NaN; a total length of 0 or NaN (missing) means unbounded, with no last chunk; otherwise the configuration is Valid: the last chunk index and length cover the stream exactly |
| `ChunkStore.CeilDiv` | index.js:20 | `Math.ceil(a / b)` for whole numbers is the fewest blocks of `b` that hold `a`: `(q - 1) * b < a <= q * b` |
| `ChunkStore.LastChunkIndex` | index.js:20 | `ceil(length / chunkLength) - 1` is the index of the chunk that holds the last byte: `k * chunkLength < length <= (k + 1) * chunkLength`, and it is not negative for a non-empty stream |
| `ChunkStore.LastChunkLength` | index.js:19 | `length % chunkLength`, or `chunkLength` when that is 0, lies between 1 and `chunkLength` and leaves the same remainder as `length` |
| `ChunkStore.LastChunkLayout` | index.js:19-20 | for positive length and chunk length, `lastChunkIndex * chunkLength + lastChunkLength == length`, `1 <= lastChunkLength <= chunkLength` and `lastChunkIndex >= 0` |
| `ChunkStore.LastChunkUnique` | index.js:19-20 | any index and last length that cover the stream that way are the ones `ceil(length / chunkLength) - 1` and `length % chunkLength`, or `chunkLength` when that is 0, give |
| `ChunkStore.RequiredLength` | index.js:27-34 | the length `put` demands is the chunk length on an unbounded store; on a bounded one it is `min(chunkLength, length - index * chunkLength)` for an index inside the stream (the size of that chunk) and the full chunk length for any index outside it, past the last included |
| `ChunkStore.LengthError` | index.js:28-34 | a wrong-length put reports the last-chunk error exactly at `lastChunkIndex` and the chunk error elsewhere, each carrying the length `RequiredLength` demands |
| `ChunkStore.Message` | index.js:12-34 | the error texts of index.js:12, 25, 29 and 33 ("Chunk not found" is index.js:66); a length error's message starts with its fixed text, and the rest is a decimal numeral that reads back as the required length |
| `ChunkStore.NumberedMessage` | index.js:29-33 | `prefix + n` keeps the prefix and follows it with digits that read back as `n` |
| `Decimal.Show` | index.js:29-33 | a number is written as at least one decimal digit, with no leading zero, and "0" only for 0 |
| `Decimal.ValueOfShow` | index.js:29-33 | the numeral written into a message reads back as the number (round trip) |
| `Decimal.ShowInjective` | index.js:29-33 | different required lengths give different messages |
| `ChunkStore.RangeOffset` | index.js:75 | `opts.offset` with 0 in its place when it is absent: the read starts at 0 exactly when the offset is absent or 0; `ReadRange` states what the offset selects |
| `ChunkStore.RangeLength` | index.js:76 | `opts.length`, or `buf.length - offset` when that is absent or 0; it is negative only when the offset lies past the end, and `len + offset`, the slice's end, is never negative |
| `ChunkStore.Slice` | index.js:81 | `Buffer.slice(start, end)` with non-negative bounds gives the bytes from `start` on, as many as lie before both `end` and the end of the buffer |
| `ChunkStore.ReadRange` | index.js:73-81 | a read without `opts` gives the whole payload; a range read gives `buf[offset .. min(offset + want, size)]`, where size is the payload length, or nothing when the offset lies past the end; `offset` defaults to 0 and `want` to the whole chunk when the length is absent or 0 |
| `ChunkStore.ReadRangeInside` | index.js:75-81 | a range inside the payload, `{offset: k, length: m}`, gives exactly bytes `[k, k + m)` |
| `ChunkStore.FullRangeIsWholeChunk` | index.js:73-80 | a range from offset 0 (given or absent) over the full length (given, 0 or absent) gives the same bytes as a read without `opts`: the whole payload |
| `ChunkStore.Storage.constructor` | index.js:11-21 | a new store is open, keeps the given configuration and starts from what the named cache already holds |
| `ChunkStore.Storage.Create` | index.js:11-21 | construction fails exactly for a chunk length of 0 or NaN; otherwise it gives a fresh open store whose configuration is `Configure`'s |
| `ChunkStore.Storage.Put` | index.js:24-53 | a closed store refuses with "Storage is closed" before any length check; an open one accepts exactly when the payload length is `RequiredLength(index)` and otherwise reports `LengthError(index)`; success overwrites only key `index` with the payload (so a later `Get` returns it), failure leaves the cache unchanged, and a cache whose entries all have their required length keeps that property |
| `ChunkStore.Storage.Get` | index.js:55-85 | a closed store refuses with "Storage is closed"; a missing key gives the not-found error; otherwise the result is `ReadRange` of the stored bytes: the whole payload without `opts`, the requested range with them; nothing is changed |
| `ChunkStore.Storage.Close` | index.js:87-93 | fails with "Storage is closed" when already closed; otherwise succeeds; either way the store is closed afterwards and the cache is untouched |
| `ChunkStore.Storage.Destroy` | index.js:95-109 | fails with "Storage is closed" and deletes nothing when already closed; otherwise closes the store and deletes every key, leaving the cache empty |

`ChunkStore.Example` is a client that uses only these contracts. It walks through the
scenario of 4-byte chunks over a 10-byte stream. The last index is 2 and the
last length is 2. Full chunks go in at indices 0 and 1, and a 2-byte chunk at
index 2. A 4-byte chunk at index 2 is refused and the error names 2. `get(2)`
gives the 2 stored bytes. `get(1, {offset: 1, length: 2})` gives bytes 1 and 2
of chunk 1. After `close`, `put` and `destroy` fail with "Storage is closed".

## Left out

- The platform probe of `window` and `window.caches` (index.js:7) and the
  call without `new` (index.js:9) depend on the host environment, not on logic.
- The cache name (`opts.name`, default `'CacheStorageChunkStore'`) and the key
  format `'/index/' + index` are left out. A store only ever touches its own
  named cache, so the model keys that cache by chunk index directly.
- `Blob`, `Response`, the HTTP headers and `Buffer.from(arrayBuffer)`
  (index.js:38-46, 72) are foreign calls. The payload is stored and returned
  as the same byte sequence.
- Asynchrony is left out: promises, `caches.open`, `queueMicrotask`
  (index.js:112-114) and the juggling of callback and `opts` arguments
  (index.js:56-59). Each operation completes at once with its result.
- Failures of the cache backend are left out. A rejected `cache.put`,
  `cache.keys` or `response.arrayBuffer()` never reaches the callback in
  index.js, or reaches it as an opaque error.
- `Storage.Destroy` deletes the keys one at a time but without interruption.
  The source's deletions are not awaited (index.js:102-106), so a failed or
  still-pending delete can leave keys behind. The model does not capture that.
- JavaScript number behaviour is left out. Chunk indices are whole numbers.
  A string index such as `'2'` is not modelled: index.js compares it with
  `===` (index.js:27), so it is held to `chunkLength` even at the last index,
  yet it writes the same key `'/index/2'` (index.js:50). The model does not capture
  coercion of non-numeric arguments other than to NaN. It does not capture
  floating-point `Math.ceil` and `%` beyond 2^53, where the model's exact
  integer arithmetic differs. Negative or fractional chunk lengths, total
  lengths, offsets and range lengths are not modelled. Index.js accepts some of
  these, and `Buffer.slice` counts negative bounds from the end. The model
  admits non-negative whole numbers only.
- `Decimal.Show` writes every whole number in plain digits. JavaScript switches
  to exponent notation from 10^21 on.
