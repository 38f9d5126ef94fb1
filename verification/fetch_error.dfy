/**
 The value part of the error raised for a failed response: the response's
 status, the optional payload as given, and a message derived from the
 status alone. `D` is the payload's type, whatever kind it is.
 */
module FetchErrors {
  import opened Optional
  import Decimal

  /** The only part of a response the error reads. */
  datatype Response = Response(status: int)

  /** `data == Absent` is an omitted (undefined) payload. */
  datatype FetchError<D> = FetchError(status: int, data: Maybe<D>, message: string)

  const MessagePrefix: string := "Request failed with status code "

  /** The prefix followed by the decimal rendering of `status`. */
  function Message(status: int): (m: string)
    ensures |m| > |MessagePrefix| && m[..|MessagePrefix|] == MessagePrefix
    ensures Decimal.IsCanonicalInt(m[|MessagePrefix|..])
    ensures Decimal.IntValue(m[|MessagePrefix|..]) == status
  {
    var d := Decimal.IntToDecimal(status);
    var m := MessagePrefix + d;
    assert m[|MessagePrefix|..] == d;
    m
  }

  /** Reads the status back out of a message, if it is one of the derived messages. */
  function StatusOf(message: string): Maybe<int> {
    if |message| >= |MessagePrefix| && message[..|MessagePrefix|] == MessagePrefix then
      Decimal.ParseInt(message[|MessagePrefix|..])
    else
      Absent
  }

  /** Builds the error for any status and any payload; construction never fails. */
  function New<D>(response: Response, data: Maybe<D>): (e: FetchError<D>)
    ensures e.status == response.status
    ensures e.data == data
    ensures StatusOf(e.message) == Present(response.status)
  {
    var m := Message(response.status);
    FetchError(response.status, data, m)
  }

  /** `StatusOf` inverts `Message` exactly: a string is a derived message iff it parses. */
  lemma StatusOfMessage(message: string, status: int)
    ensures StatusOf(message) == Present(status) <==> message == Message(status)
  {
  }

  /** The message depends on the status only, and determines it. */
  lemma MessageDeterminesStatus<D>(r1: Response, d1: Maybe<D>, r2: Response, d2: Maybe<D>)
    ensures New(r1, d1).message == New(r2, d2).message <==> r1.status == r2.status
  {
    StatusOfMessage(New(r1, d1).message, r1.status);
    StatusOfMessage(New(r2, d2).message, r2.status);
  }

  /** A three-digit status yields the prefix and its three digits. */
  lemma ThreeDigitMessage(status: nat)
    requires 100 <= status < 1000
    ensures Message(status) == MessagePrefix + [Decimal.DigitChar(status / 100),
              Decimal.DigitChar(status / 10 % 10), Decimal.DigitChar(status % 10)]
  {
    Decimal.ThreeDigits(status);
  }

  /** Messages for the error statuses of the error's test suite. */
  lemma ExampleMessages()
    ensures Message(400) == MessagePrefix + "400"
    ensures Message(401) == MessagePrefix + "401"
    ensures Message(403) == MessagePrefix + "403"
    ensures Message(404) == MessagePrefix + "404"
    ensures Message(500) == MessagePrefix + "500"
    ensures Message(502) == MessagePrefix + "502"
    ensures Message(503) == MessagePrefix + "503"
  {
    ThreeDigitMessage(400);
    ThreeDigitMessage(401);
    ThreeDigitMessage(403);
    ThreeDigitMessage(404);
    ThreeDigitMessage(500);
    ThreeDigitMessage(502);
    ThreeDigitMessage(503);
  }

  /** Messages for the unusual statuses of the error's test suite: no status is rejected. */
  lemma ExampleEdgeMessages()
    ensures Message(100) == MessagePrefix + "100"
    ensures Message(204) == MessagePrefix + "204"
    ensures Message(418) == MessagePrefix + "418"
    ensures Message(599) == MessagePrefix + "599"
  {
  }

  /** The payload kinds used in the error's tests: text, integers, booleans, null, lists, plain objects. */
  datatype Payload =
    | Text(text: string)
    | Number(number: int)
    | Flag(flag: bool)
    | Null
    | List(items: seq<Payload>)
    | Object(fields: map<string, Payload>)

  /** Errors of the test suite: status and payload are kept as given, with or without a payload. */
  lemma ExampleErrors()
    ensures New<Payload>(Response(404), Absent) == FetchError(404, Absent, MessagePrefix + "404")
    ensures var body := Object(map["message" := Text("Bad request"), "code" := Text("INVALID_INPUT")]);
            New(Response(400), Present(body)) == FetchError(400, Present(body), MessagePrefix + "400")
    ensures forall p: Payload {:trigger New(Response(422), Present(p))} ::
              New(Response(422), Present(p)).status == 422 && New(Response(422), Present(p)).data == Present(p)
              && New(Response(422), Present(p)).message == Message(422)
  {
    ExampleMessages();
  }

  /** The payload kinds of the error's test suite, each stored unchanged. */
  lemma ExamplePayloadKinds()
    ensures var p := Text("Simple error message");
            New(Response(422), Present(p)).data == Present(p) && New(Response(422), Present(p)).status == 422
    ensures var p := List([Text("error1"), Text("error2"), Text("error3")]);
            New(Response(422), Present(p)).data == Present(p) && New(Response(422), Present(p)).status == 422
    ensures var p := Number(42);
            New(Response(422), Present(p)).data == Present(p) && New(Response(422), Present(p)).status == 422
    ensures var p := Flag(true);
            New(Response(422), Present(p)).data == Present(p) && New(Response(422), Present(p)).status == 422
    ensures var p := Null;
            New(Response(422), Present(p)).data == Present(p) && New(Response(422), Present(p)).status == 422
    ensures var p := Object(map["errors" := List([Text("Field is required")]), "timestamp" := Text("2023-01-01T00:00:00Z")]);
            New(Response(422), Present(p)).data == Present(p) && New(Response(422), Present(p)).status == 422
  {
  }
}
