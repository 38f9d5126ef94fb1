/**
 The fluent header builder. The source mutates one map in place and returns
 the same builder; here every `with*` call returns the next builder value,
 which the caller threads through the chain.
 */
module Headers {
  import opened Optional
  import ContentTypes

  /** Header name to header value; names compare exactly, case included. */
  type HeaderMap = map<string, string>

  const Authorization: string := "Authorization"
  const AcceptLanguage: string := "Accept-Language"
  const ContentType: string := "Content-Type"

  /** The one name whose assignment on a plain object can miss the store. */
  const ProtoKey: string := "__proto__"

  /** The host's truthiness of an optional string: present and non-empty. */
  predicate Truthy(v: Maybe<string>) {
    v.Present? && v.value != ""
  }

  /**
   Whether assigning to `key` on the object holding `m` stores an entry. Every
   name does except `__proto__` when the object has no own entry of that name:
   the assignment then reaches the inherited prototype setter, which ignores a
   string value. An own `__proto__` entry (copied from an initial map) is
   updated like any other.
   */
  predicate Settable(m: HeaderMap, key: string) {
    key != ProtoKey || key in m
  }

  /** The value stored under `k`, if any. */
  function Lookup(m: HeaderMap, k: string): Maybe<string> {
    if k in m then Present(m[k]) else Absent
  }

  /** `m'` stores `value` under `key`. */
  ghost predicate Holds(m': HeaderMap, key: string, value: string) {
    key in m' && m'[key] == value
  }

  /** `m'` agrees with `m` on every key other than `key`. */
  ghost predicate SameExcept(m: HeaderMap, m': HeaderMap, key: string) {
    forall k :: k != key ==> Lookup(m', k) == Lookup(m, k)
  }

  datatype Builder = Builder(headers: HeaderMap) {

    /** Sets `Authorization` to "Bearer " + token, with no check on the token. */
    function WithBearer(token: string): (r: Builder)
      ensures Holds(r.headers, Authorization, "Bearer " + token)
      ensures SameExcept(headers, r.headers, Authorization)
      ensures r.headers.Keys == headers.Keys + {Authorization}
    {
      Builder(headers[Authorization := "Bearer " + token])
    }

    /** Sets `Accept-Language` only for a present, non-empty language. */
    function WithLanguage(language: Maybe<string>): (r: Builder)
      ensures Truthy(language) ==> Holds(r.headers, AcceptLanguage, language.value)
      ensures !Truthy(language) ==> r == this
      ensures SameExcept(headers, r.headers, AcceptLanguage)
    {
      if Truthy(language) then Builder(headers[AcceptLanguage := language.value]) else this
    }

    /** Sets `Content-Type` to the JSON media type. */
    function WithContentTypeJson(): (r: Builder)
      ensures Holds(r.headers, ContentType, "application/json")
      ensures r == WithContentType(ContentTypes.Json)
    {
      WithContentType(ContentTypes.Json)
    }

    /** Sets `Content-Type`, whatever the value (the empty string included). */
    function WithContentType(contentType: string): (r: Builder)
      ensures Holds(r.headers, ContentType, contentType)
      ensures SameExcept(headers, r.headers, ContentType)
      ensures r.headers.Keys == headers.Keys + {ContentType}
    {
      Builder(headers[ContentType := contentType])
    }

    /**
     Sets `key`, exactly as spelled, only for a present, non-empty value (and,
     for `__proto__`, only over an own entry); never deletes.
     */
    function WithHeader(key: string, value: Maybe<string>): (r: Builder)
      ensures Truthy(value) && Settable(headers, key) ==> Holds(r.headers, key, value.value)
      ensures !(Truthy(value) && Settable(headers, key)) ==> r == this
      ensures SameExcept(headers, r.headers, key)
      ensures headers.Keys <= r.headers.Keys
    {
      if Truthy(value) && Settable(headers, key) then Builder(headers[key := value.value]) else this
    }

    /** A full copy of the accumulated map: a fresh builder over it is this builder again. */
    function Export(): (m: HeaderMap)
      ensures New(Present(m)) == this
    {
      headers
    }
  }

  /** The map a fresh builder copies: the initial map, or the empty one when it is omitted. */
  function InitialMap(initial: Maybe<HeaderMap>): HeaderMap {
    match initial
    case Present(m) => m
    case Absent => map[]
  }

  /** A fresh builder over a copy of `initial`, or over the empty map. */
  function New(initial: Maybe<HeaderMap>): (b: Builder)
    ensures initial.Present? ==> b.headers == initial.value
    ensures initial.Absent? ==> b.headers == map[]
  {
    Builder(InitialMap(initial))
  }

  /** Two writes to one key keep the second value and no more keys than one write. */
  lemma LastWriteWins(b: Builder, key: string, v1: string, v2: string)
    ensures v2 != "" ==> b.WithHeader(key, Present(v1)).WithHeader(key, Present(v2)) == b.WithHeader(key, Present(v2))
    ensures b.WithBearer(v1).WithBearer(v2) == b.WithBearer(v2)
    ensures b.WithContentType(v1).WithContentType(v2) == b.WithContentType(v2)
  {
  }

  /** The single-call test cases export exactly the expected maps. */
  lemma ExampleSingleCalls()
    ensures New(Present(map["X-Custom" := "value"])).Export() == map["X-Custom" := "value"]
    ensures New(Absent).Export() == map[]
    ensures New(Absent).WithBearer("abc123").Export() == map[Authorization := "Bearer abc123"]
    ensures New(Absent).WithBearer("abc 123").Export() == map[Authorization := "Bearer abc 123"]
    ensures New(Absent).WithLanguage(Present("en-US")).Export() == map[AcceptLanguage := "en-US"]
    ensures New(Absent).WithLanguage(Absent).Export() == map[]
    ensures New(Absent).WithLanguage(Present("")).Export() == map[]
    ensures New(Absent).WithContentTypeJson().Export() == map[ContentType := "application/json"]
    ensures New(Absent).WithContentType("text/plain").Export() == map[ContentType := "text/plain"]
    ensures New(Absent).WithHeader("X-Custom", Present("test-value")).Export() == map["X-Custom" := "test-value"]
    ensures New(Absent).WithHeader("X-Custom", Absent).Export() == map[]
    ensures New(Absent).WithHeader("X-Custom", Present("")).Export() == map[]
  {
    assert "Bearer " + "abc123" == "Bearer abc123";
    assert "Bearer " + "abc 123" == "Bearer abc 123";
  }

  /** The short-chain test cases export exactly the expected maps. */
  lemma ExampleChains()
    ensures New(Absent).WithBearer("token123").WithContentTypeJson().WithLanguage(Present("en-US"))
              .WithHeader("X-Custom", Present("value")).Export()
         == map[Authorization := "Bearer token123", ContentType := "application/json",
                AcceptLanguage := "en-US", "X-Custom" := "value"]
    ensures New(Absent).WithBearer("token1").WithBearer("token2").Export()
         == map[Authorization := "Bearer token2"]
    ensures New(Present(map["X-Initial" := "initial-value"])).WithBearer("token").WithLanguage(Present("en-US")).Export()
         == map["X-Initial" := "initial-value", Authorization := "Bearer token", AcceptLanguage := "en-US"]
    ensures New(Present(map["X-Initial" := "initial-value"])).WithBearer("token").Export()
         == map["X-Initial" := "initial-value", Authorization := "Bearer token"]
    ensures New(Absent).WithHeader("content-type", Present("text/plain")).WithContentTypeJson().Export()
         == map["content-type" := "text/plain", "Content-Type" := "application/json"]
  {
    assert "Bearer " + "token123" == "Bearer token123";
    assert "Bearer " + "token2" == "Bearer token2";
    assert "Bearer " + "token" == "Bearer token";
  }

  /** `__proto__` is stored only over an own entry of that name. */
  lemma ExampleProtoKey()
    ensures New(Absent).WithHeader("__proto__", Present("x")).Export() == map[]
    ensures New(Present(map["__proto__" := "a"])).WithHeader("__proto__", Present("x")).Export() == map["__proto__" := "x"]
  {
  }

  /** The complete chain of the test suite yields exactly five entries. */
  lemma FullChainExample()
    ensures New(Present(map["X-App" := "MyApp"]))
              .WithBearer("abc123")
              .WithLanguage(Present("fr-FR"))
              .WithContentTypeJson()
              .WithHeader("X-Custom", Present("test"))
              .WithHeader("X-Empty", Present(""))
              .WithHeader("X-Undefined", Absent)
              .Export()
         == map["X-App" := "MyApp", "Authorization" := "Bearer abc123", "Accept-Language" := "fr-FR",
                "Content-Type" := "application/json", "X-Custom" := "test"]
  {
    assert "Bearer " + "abc123" == "Bearer abc123";
  }
}
