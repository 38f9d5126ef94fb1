/**
 Chains of builder calls. `Run` applies a chain in call order, as the fluent
 source does; `Expected` is an independent reference definition of the
 resulting map: the last effective write of each key, or else its initial
 entry. `Build` keeps one builder variable and updates it call by call, the
 way a caller's chain drives the source's in-place builder.
 */
module HeaderChain {
  import opened Optional
  import opened Headers
  import ContentTypes

  /** One `with*` call and its arguments. */
  datatype Call =
    | Bearer(token: string)
    | Language(language: Maybe<string>)
    | ContentTypeJson
    | ContentTypeOf(contentType: string)
    | Header(key: string, value: Maybe<string>)

  /**
   The single (key, value) write a call performs on a builder holding `m`, or
   Absent when it is suppressed. Only whether `m` has a `__proto__` entry matters.
   */
  function Effect(m: HeaderMap, c: Call): Maybe<(string, string)> {
    match c
    case Bearer(t) => Present((Authorization, "Bearer " + t))
    case Language(l) => if Truthy(l) then Present((AcceptLanguage, l.value)) else Absent
    case ContentTypeJson => Present((ContentType, ContentTypes.Json))
    case ContentTypeOf(ct) => Present((ContentType, ct))
    case Header(k, v) => if Truthy(v) && Settable(m, k) then Present((k, v.value)) else Absent
  }

  /** Performs one call on a builder; no call creates or removes a `__proto__` entry. */
  function Apply(b: Builder, c: Call): (r: Builder)
    ensures Effect(b.headers, c).Absent? ==> r == b
    ensures Effect(b.headers, c).Present? ==>
              r.headers == b.headers[Effect(b.headers, c).value.0 := Effect(b.headers, c).value.1]
    ensures ProtoKey in r.headers <==> ProtoKey in b.headers
  {
    match c
    case Bearer(t) => b.WithBearer(t)
    case Language(l) => b.WithLanguage(l)
    case ContentTypeJson => b.WithContentTypeJson()
    case ContentTypeOf(ct) => b.WithContentType(ct)
    case Header(k, v) => b.WithHeader(k, v)
  }

  /** Performs a chain of calls, first call first. */
  function Run(b: Builder, cs: seq<Call>): Builder
    decreases |cs|
  {
    if cs == [] then b else Run(Apply(b, cs[0]), cs[1..])
  }

  /** The value of the last call in `cs` that writes `k`, starting from `initial`, if any does. */
  function LastWrite(initial: HeaderMap, cs: seq<Call>, k: string): Maybe<string>
    decreases |cs|
  {
    if cs == [] then Absent
    else
      var e := Effect(initial, cs[|cs| - 1]);
      if e.Present? && e.value.0 == k then Present(e.value.1) else LastWrite(initial, cs[..|cs| - 1], k)
  }

  /** What a chain leaves under `k`: its last write there, or else the initial entry. */
  function Expected(initial: HeaderMap, cs: seq<Call>, k: string): Maybe<string> {
    match LastWrite(initial, cs, k)
    case Present(v) => Present(v)
    case Absent => Lookup(initial, k)
  }

  /** A chain writes `__proto__` only when the initial map already holds it. */
  lemma {:induction false} ProtoWrittenOnlyIfOwn(initial: HeaderMap, cs: seq<Call>)
    ensures LastWrite(initial, cs, ProtoKey).Present? ==> ProtoKey in initial
    decreases |cs|
  {
    if cs != [] {
      ProtoWrittenOnlyIfOwn(initial, cs[..|cs| - 1]);
    }
  }

  /** Running a chain one call longer performs that call on the shorter chain's result. */
  lemma {:induction false} RunAppend(b: Builder, cs: seq<Call>, c: Call)
    ensures Run(b, cs + [c]) == Apply(Run(b, cs), c)
    decreases |cs|
  {
    if cs == [] {
      assert [] + [c] == [c];
    } else {
      assert (cs + [c])[1..] == cs[1..] + [c];
      RunAppend(Apply(b, cs[0]), cs[1..], c);
    }
  }

  /** Last write wins, and keys no call writes keep their initial entry. */
  lemma {:induction false} RunMeetsExpected(b: Builder, cs: seq<Call>)
    ensures forall k :: Lookup(Run(b, cs).Export(), k) == Expected(b.Export(), cs, k)
    decreases |cs|
  {
    if cs != [] {
      var p := cs[..|cs| - 1];
      var c := cs[|cs| - 1];
      assert p + [c] == cs;
      RunAppend(b, p, c);
      RunMeetsExpected(b, p);
      ProtoWrittenOnlyIfOwn(b.headers, p);
      var before := Run(b, p).Export();
      var after := Run(b, cs).Export();
      assert Lookup(before, ProtoKey) == Expected(b.Export(), p, ProtoKey);
      assert Effect(before, c) == Effect(b.headers, c);
      assert after == Apply(Run(b, p), c).Export();
      forall k
        ensures Lookup(after, k) == Expected(b.Export(), cs, k)
      {
        assert Lookup(before, k) == Expected(b.Export(), p, k);
      }
    }
  }

  /** The header map a chain exports from a fresh builder, updating one builder call by call. */
  method Build(initial: Maybe<HeaderMap>, calls: seq<Call>) returns (exported: HeaderMap)
    ensures forall k :: Lookup(exported, k) == Expected(InitialMap(initial), calls, k)
  {
    var init := InitialMap(initial);
    var b := New(initial);
    var i := 0;
    while i < |calls|
      invariant 0 <= i <= |calls|
      invariant ProtoKey in b.headers <==> ProtoKey in init
      invariant forall k :: Lookup(b.headers, k) == Expected(init, calls[..i], k)
    {
      assert calls[..i + 1][..i] == calls[..i];
      assert Effect(b.headers, calls[i]) == Effect(init, calls[i]);
      b := Apply(b, calls[i]);
      i := i + 1;
    }
    assert calls[..|calls|] == calls;
    exported := b.Export();
  }

  /** Entries of the initial map that no call writes are exported unchanged. */
  lemma InitialEntriesSurvive(initial: HeaderMap, cs: seq<Call>, k: string)
    requires k in initial && LastWrite(initial, cs, k).Absent?
    ensures k in Run(New(Present(initial)), cs).Export()
    ensures Run(New(Present(initial)), cs).Export()[k] == initial[k]
  {
    RunMeetsExpected(New(Present(initial)), cs);
    assert Lookup(Run(New(Present(initial)), cs).Export(), k) == Present(initial[k]);
  }

  /** A key is exported iff it was an initial key or some call wrote it; nothing is deleted. */
  lemma RunKeys(b: Builder, cs: seq<Call>)
    ensures forall k :: k in Run(b, cs).Export() <==> k in b.Export() || LastWrite(b.Export(), cs, k).Present?
  {
    RunMeetsExpected(b, cs);
    var m := Run(b, cs).Export();
    forall k
      ensures k in m <==> k in b.Export() || LastWrite(b.Export(), cs, k).Present?
    {
      assert Lookup(m, k) == Expected(b.Export(), cs, k);
    }
  }

  /** A call that writes a key is overridden by a later call writing the same key. */
  lemma Overwrite(b: Builder, c1: Call, c2: Call)
    requires Effect(b.headers, c1).Present? && Effect(b.headers, c2).Present?
    requires Effect(b.headers, c1).value.0 == Effect(b.headers, c2).value.0
    ensures Apply(Apply(b, c1), c2) == Apply(b, c2)
  {
  }

  /** Calls writing different keys commute. */
  lemma Commute(b: Builder, c1: Call, c2: Call)
    requires Effect(b.headers, c1).Present? && Effect(b.headers, c2).Present? ==>
               Effect(b.headers, c1).value.0 != Effect(b.headers, c2).value.0
    ensures Apply(Apply(b, c1), c2) == Apply(Apply(b, c2), c1)
  {
  }
}
