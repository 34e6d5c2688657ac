/** Shared vocabulary: optional values, the untyped values found in backend
    documents, and the abstract string codec that stands for kotlinx JSON. */
module Common {

  /** Kotlin's nullable `T?`. */
  datatype Option<+T> = None | Some(value: T) {
    /** Kotlin's `x ?: default`. */
    function GetOr(default: T): T {
      match this
      case Some(v) => v
      case None => default
    }
  }

  /** A value of a document field as the backend hands it over (`Any`). */
  datatype Value =
    | Str(s: string)
    | Num(n: int)
    | Bool(b: bool)
    | List(elems: seq<Value>)
    | Null

  /** A document's field map (`Map<String, Any>`). */
  type Data = map<string, Value>

  /** `data[key]`, with a missing key read as Kotlin's `null`. */
  function Field(data: Data, key: string): Value {
    if key in data then data[key] else Null
  }

  /** A string codec for a serialisable class: kotlinx `encodeToString` and a
      `decodeFromString` whose exception is turned into `None`. */
  datatype Codec<!T> = Codec(encode: T -> string, decode: string -> Option<T>)

  /** The codec decodes every encoding back to the encoded value. */
  ghost predicate RoundTrips<T(!new)>(c: Codec<T>) {
    forall x :: c.decode(c.encode(x)) == Some(x)
  }

  /** A list of strings as a document field value. */
  function Strs(ss: seq<string>): (r: seq<Value>)
    ensures |r| == |ss|
    ensures forall i :: 0 <= i < |ss| ==> r[i] == Str(ss[i])
  {
    if ss == [] then [] else [Str(ss[0])] + Strs(ss[1..])
  }

  /** Kotlin's `filterIsInstance<String>()`: the string elements, in order. */
  function StringsOf(vs: seq<Value>): (r: seq<string>)
    ensures |r| <= |vs|
    ensures forall s :: s in r ==> Str(s) in vs
    ensures (forall i :: 0 <= i < |vs| ==> vs[i].Str?) ==> |r| == |vs|
  {
    if vs == [] then []
    else if vs[0].Str? then [vs[0].s] + StringsOf(vs[1..])
    else StringsOf(vs[1..])
  }

  /** Reading back a written list of strings gives the same strings. */
  lemma {:induction false} StringsOfStrs(ss: seq<string>)
    ensures StringsOf(Strs(ss)) == ss
  {
    if ss != [] {
      assert Strs(ss)[1..] == Strs(ss[1..]);
      StringsOfStrs(ss[1..]);
    }
  }

  /** Kotlin's `mapNotNull { decode(it) }` over a list of strings. */
  function DecodeAll<T>(c: Codec<T>, ss: seq<string>): (r: seq<T>)
    ensures |r| <= |ss|
  {
    if ss == [] then []
    else match c.decode(ss[0])
      case Some(x) => [x] + DecodeAll(c, ss[1..])
      case None => DecodeAll(c, ss[1..])
  }

  /** Filtering distributes over concatenation: strings keep their order across both halves. */
  lemma {:induction false} StringsOfConcat(a: seq<Value>, b: seq<Value>)
    ensures StringsOf(a + b) == StringsOf(a) + StringsOf(b)
  {
    if a == [] {
      assert a + b == b;
    } else {
      assert (a + b)[0] == a[0];
      assert (a + b)[1..] == a[1..] + b;
      StringsOfConcat(a[1..], b);
    }
  }

  /** Decoding distributes over concatenation: surviving elements keep their order. */
  lemma {:induction false} DecodeAllConcat<T>(c: Codec<T>, a: seq<string>, b: seq<string>)
    ensures DecodeAll(c, a + b) == DecodeAll(c, a) + DecodeAll(c, b)
  {
    if a == [] {
      assert a + b == b;
    } else {
      assert (a + b)[0] == a[0];
      assert (a + b)[1..] == a[1..] + b;
      DecodeAllConcat(c, a[1..], b);
    }
  }

  /** Kotlin's `map { encode(it) }`. */
  function EncodeAll<T>(c: Codec<T>, xs: seq<T>): (r: seq<string>)
    ensures |r| == |xs|
    ensures forall i :: 0 <= i < |xs| ==> r[i] == c.encode(xs[i])
  {
    if xs == [] then [] else [c.encode(xs[0])] + EncodeAll(c, xs[1..])
  }

  /** Encoding then decoding a whole list loses nothing when the codec round-trips. */
  lemma {:induction false} DecodeEncodeAll<T(!new)>(c: Codec<T>, xs: seq<T>)
    requires RoundTrips(c)
    ensures DecodeAll(c, EncodeAll(c, xs)) == xs
  {
    if xs != [] {
      assert EncodeAll(c, xs)[1..] == EncodeAll(c, xs[1..]);
      assert c.decode(c.encode(xs[0])) == Some(xs[0]);
      DecodeEncodeAll(c, xs[1..]);
    }
  }

  /** Kotlin's `map { decode(it) }` where any failure throws: all or nothing. */
  function DecodeEvery<T>(c: Codec<T>, ss: seq<string>): (r: Option<seq<T>>)
    ensures r.Some? ==> |r.value| == |ss|
    ensures r.Some? <==> forall i :: 0 <= i < |ss| ==> c.decode(ss[i]).Some?
    ensures r.Some? ==> forall i :: 0 <= i < |ss| ==> Some(r.value[i]) == c.decode(ss[i])
  {
    if ss == [] then Some([])
    else match (c.decode(ss[0]), DecodeEvery(c, ss[1..]))
      case (Some(x), Some(rest)) => Some([x] + rest)
      case _ => None
  }

  /** Decoding every element of a list of encodings succeeds when the codec round-trips. */
  lemma {:induction false} DecodeEveryEncodeAll<T(!new)>(c: Codec<T>, xs: seq<T>)
    requires RoundTrips(c)
    ensures DecodeEvery(c, EncodeAll(c, xs)) == Some(xs)
  {
    if xs != [] {
      assert EncodeAll(c, xs)[1..] == EncodeAll(c, xs[1..]);
      assert c.decode(c.encode(xs[0])) == Some(xs[0]);
      DecodeEveryEncodeAll(c, xs[1..]);
      assert xs == [xs[0]] + xs[1..];
    }
  }
}
