/**
  backend/cache.js: a content-addressed store on disk. The key of an entry
  is the SHA-1 hex digest of its key parts joined with `||`; a JSON entry
  lives in `<key>.json`, a binary entry in `<key>`. On a hit the producer
  is not run; on a miss it is run once and its result stored before it is
  returned.

  SHA-1 is a parameter `hash` of every operation; the producer is a
  function from the file system before it runs to its result and the file
  system after it (it may write files of its own, as the speech producer
  does).
*/
module Cache {
  import opened Results
  import opened JsText
  import opened Files

  /** `path.join(__dirname, "cache")`, with `__dirname` written `backend`. */
  const CacheDir: string := "backend/cache"
  const KeySep: string := "||"

  datatype Kind = JsonKind | BinaryKind

  /** What a producer did: its result (or what it threw) and the file
      system it left. */
  datatype Run<T> = Run(out: Result<T>, fs: Fs)

  /** What a binary producer may return. */
  datatype BinValue =
    | Buffer(data: seq<bv8>)  // a Buffer
    | FilePath(path: string)  // a string, taken as a file path
    | OtherValue              // anything else

  /** The outcome of one `cached` call: its result, the file system after
      it, and whether the producer ran. */
  datatype Call<T> = Call(out: Result<T>, fs: Fs, produced: bool)

  predicate IsHexDigit(c: char) {
    ('0' <= c <= '9') || ('a' <= c <= 'f')
  }

  /** What `digest("hex")` of SHA-1 returns: 40 lower-case hex digits. */
  predicate IsHexDigest(d: string) {
    |d| == 40 && forall i :: 0 <= i < |d| ==> IsHexDigit(d[i])
  }

  /** `makeKey(...parts)`: the digest of the parts joined with `||`. */
  function MakeKey(hash: string -> string, parts: seq<string>): string {
    hash(Join(parts, KeySep))
  }

  function JsonPath(key: string): string {
    CacheDir + "/" + key + ".json"
  }

  function BinPath(key: string): string {
    CacheDir + "/" + key
  }

  /** `cached(parts, fn, "json")`. A hit returns the stored document; a
      file at the JSON path that does not hold JSON makes `JSON.parse`
      throw. */
  function CachedJson(fs: Fs, hash: string -> string, parts: seq<string>, produce: Fs -> Run<Json>): (r: Call<Json>)
    ensures !r.produced <==> JsonPath(MakeKey(hash, parts)) in fs
    ensures !r.produced ==> r.fs == fs
    ensures !r.produced && fs[JsonPath(MakeKey(hash, parts))].JsonDoc? ==>
      r.out == Ok(fs[JsonPath(MakeKey(hash, parts))].doc)
    ensures r.out.Ok? ==>
      JsonPath(MakeKey(hash, parts)) in r.fs && r.fs[JsonPath(MakeKey(hash, parts))] == JsonDoc(r.out.value)
    ensures r.produced && r.out.Err? ==> r.fs == produce(fs).fs
    ensures r.produced ==> r.out == produce(fs).out
    ensures r.produced && r.out.Ok? ==>
      r.fs == produce(fs).fs[JsonPath(MakeKey(hash, parts)) := JsonDoc(r.out.value)]
  {
    var file := JsonPath(MakeKey(hash, parts));
    if file in fs then
      match fs[file]
      case JsonDoc(v) => Call(Ok(v), fs, false)
      case Bytes(_) => Call(Err("JSON.parse: not a JSON document"), fs, false)
    else
      var run := produce(fs);
      match run.out
      case Err(e) => Call(Err(e), run.fs, true)
      case Ok(v) => Call(Ok(v), run.fs[file := JsonDoc(v)], true)
  }

  /** `cached(parts, fn, "binary")`. A hit returns the cache path; a miss
      stores a Buffer, or copies the file a returned path names, and
      returns the cache path; any other result throws and stores nothing. */
  function CachedBinary(fs: Fs, hash: string -> string, parts: seq<string>, produce: Fs -> Run<BinValue>): (r: Call<string>)
    ensures !r.produced <==> BinPath(MakeKey(hash, parts)) in fs
    ensures !r.produced ==> r.fs == fs && r.out.Ok?
    ensures r.out.Ok? ==> r.out.value == BinPath(MakeKey(hash, parts)) && r.out.value in r.fs
    ensures r.produced && r.out.Err? ==> r.fs == produce(fs).fs
    ensures r.produced && produce(fs).out == Ok(OtherValue) ==> r.out.Err?
    ensures r.produced && produce(fs).out.Err? ==> r.out.Err?
    ensures r.produced && produce(fs).out.Ok? && produce(fs).out.value.Buffer? ==>
      r.out.Ok? && r.fs == produce(fs).fs[BinPath(MakeKey(hash, parts)) := Bytes(produce(fs).out.value.data)]
    ensures r.produced && produce(fs).out.Ok? && produce(fs).out.value.FilePath? ==>
      var p := produce(fs).out.value.path;
      && (r.out.Ok? <==> p in produce(fs).fs)
      && (p in produce(fs).fs ==> r.fs == produce(fs).fs[BinPath(MakeKey(hash, parts)) := produce(fs).fs[p]])
  {
    var file := BinPath(MakeKey(hash, parts));
    if file in fs then Call(Ok(file), fs, false)
    else
      var run := produce(fs);
      match run.out
      case Err(e) => Call(Err(e), run.fs, true)
      case Ok(Buffer(data)) => Call(Ok(file), run.fs[file := Bytes(data)], true)
      case Ok(FilePath(p)) =>
        if p in run.fs then Call(Ok(file), run.fs[file := run.fs[p]], true)
        else Call(Err("fn() must return a Buffer or a valid filepath"), run.fs, true)
      case Ok(OtherValue) => Call(Err("fn() must return a Buffer or a valid filepath"), run.fs, true)
  }

  /** A successful JSON miss makes the very next call with the same key
      parts a hit: it returns the same value and does not run its
      producer, whatever that producer is. */
  lemma {:induction false} JsonRepeatIsHit(fs: Fs, hash: string -> string, parts: seq<string>, produce: Fs -> Run<Json>, again: Fs -> Run<Json>)
    requires CachedJson(fs, hash, parts, produce).out.Ok?
    ensures var first := CachedJson(fs, hash, parts, produce);
      var second := CachedJson(first.fs, hash, parts, again);
      !second.produced && second.out == first.out && second.fs == first.fs
  {
  }

  /** The same for binary entries: the second call returns the same cache
      path without running its producer. */
  lemma {:induction false} BinaryRepeatIsHit(fs: Fs, hash: string -> string, parts: seq<string>, produce: Fs -> Run<BinValue>, again: Fs -> Run<BinValue>)
    requires CachedBinary(fs, hash, parts, produce).out.Ok?
    ensures var first := CachedBinary(fs, hash, parts, produce);
      var second := CachedBinary(first.fs, hash, parts, again);
      !second.produced && second.out == first.out && second.fs == first.fs
  {
  }

  /** Key parts with the same `||`-join share one entry: `[a + "||" + b]`
      and `[a, b]` name the same file, whatever `a` and `b` are. */
  lemma {:induction false} JoinedPartsShareEntry(hash: string -> string, a: string, b: string)
    ensures MakeKey(hash, [a + KeySep + b]) == MakeKey(hash, [a, b])
  {
    assert [a, b][1..] == [b];
    assert Join([a, b], KeySep) == a + KeySep + Join([b], KeySep);
    assert Join([a + KeySep + b], KeySep) == a + KeySep + b;
  }

  /** No JSON entry file is a binary entry file. */
  lemma {:induction false} KindsApart(k1: string, k2: string)
    requires IsHexDigest(k1) && IsHexDigest(k2)
    ensures JsonPath(k1) != BinPath(k2)
  {
    assert |JsonPath(k1)| == |BinPath(k2)| + 5;
  }

  /** An entry of one kind never satisfies a lookup of the other: storing
      a JSON entry leaves a binary lookup with the same parts a miss, unless
      the JSON producer itself wrote the binary entry. */
  lemma {:induction false} JsonEntryIsNotBinaryHit(fs: Fs, hash: string -> string, parts: seq<string>,
                                produceJson: Fs -> Run<Json>, produceBin: Fs -> Run<BinValue>)
    requires IsHexDigest(MakeKey(hash, parts))
    requires BinPath(MakeKey(hash, parts)) !in fs
    requires BinPath(MakeKey(hash, parts)) !in produceJson(fs).fs
    ensures CachedBinary(CachedJson(fs, hash, parts, produceJson).fs, hash, parts, produceBin).produced
  {
    KindsApart(MakeKey(hash, parts), MakeKey(hash, parts));
  }

  /** And a binary entry never satisfies a JSON lookup, unless the binary
      producer itself wrote the JSON entry. */
  lemma {:induction false} BinaryEntryIsNotJsonHit(fs: Fs, hash: string -> string, parts: seq<string>,
                                produceBin: Fs -> Run<BinValue>, produceJson: Fs -> Run<Json>)
    requires IsHexDigest(MakeKey(hash, parts))
    requires JsonPath(MakeKey(hash, parts)) !in fs
    requires JsonPath(MakeKey(hash, parts)) !in produceBin(fs).fs
    ensures CachedJson(CachedBinary(fs, hash, parts, produceBin).fs, hash, parts, produceJson).produced
  {
    KindsApart(MakeKey(hash, parts), MakeKey(hash, parts));
  }
}
