/**
 * The checks `fetchProperties` applies to the backend's reply: network
 * failures, non-2xx statuses and bodies that are not the success envelope
 * become errors, and only the envelope's `data` is returned. The reply is
 * given as a value; the request itself is not modelled.
 */
module Fetch {
  import opened Wrappers
  import opened Numbers

  /**
   * The body as `res.json()` sees it: not JSON at all, the JSON `null`, or
   * a value whose `status` (None when missing or not a string) and `data`
   * (None when missing or falsy) are inspected.
   */
  datatype Envelope<D> = Unparsable | NullBody | Body(status: Option<string>, data: Option<D>)

  /**
   * What the request produced: a network-level failure with its message
   * ("" when the error had none), or a response with its status code, its
   * body as text (None when reading it fails) and its body as JSON.
   */
  datatype Reply<D> =
    | NetworkFailure(reason: string)
    | Response(status: int, text: Option<string>, json: Envelope<D>)

  /** Errors the runtime raises on the way, with messages that are not the page's own. */
  datatype RuntimeError = InvalidJson | NullEnvelope

  /** The result: the envelope's data, an error thrown by the page with its message, or a runtime error. */
  datatype Outcome<D> = Loaded(data: D) | Thrown(message: string) | Raised(error: RuntimeError)

  const FallbackDetail: string := "failed to load properties"
  const ShapeMessage: string := "Unexpected API shape."

  /** `res.ok`: the status is in the 2xx range. */
  predicate IsOk(status: int)
    ensures IsOk(status) <==> status / 100 == 2
  {
    200 <= status <= 299
  }

  /** `Network error: ${e?.message || "unknown"}`. */
  function NetworkMessage(reason: string): (m: string)
    ensures |m| > 15 && m[..15] == "Network error: "
    ensures m[15..] == (if reason == "" then "unknown" else reason)
  {
    "Network error: " + (if reason == "" then "unknown" else reason)
  }

  /** The text shown after the status: the body text, or the fallback when it is empty or unreadable. */
  function Detail(text: Option<string>): (d: string)
    ensures d != ""
    ensures text.Some? && text.value != "" ==> d == text.value
    ensures text.None? || text.value == "" ==> d == FallbackDetail
  {
    if text.None? || text.value == "" then FallbackDetail else text.value
  }

  /** `API ${res.status}: ${text || "failed to load properties"}`. */
  function ApiMessage(status: int, text: Option<string>): (m: string)
    ensures |m| > 4 && m[..4] == "API "
    ensures m[4..] == IntString(status) + ":" + (" " + Detail(text))
  {
    var rest := IntString(status) + ":" + (" " + Detail(text));
    assert ("API " + rest)[4..] == rest;
    "API " + rest
  }

  /** The decision part of `fetchProperties`, applied to the reply. */
  function Classify<D>(r: Reply<D>): (o: Outcome<D>)
    ensures o.Loaded? ==> r.Response? && IsOk(r.status) && r.json == Body(Some("SUCCESS"), Some(o.data))
    ensures o.Thrown? ==> o.message != ""
    ensures r.NetworkFailure? ==> o == Thrown(NetworkMessage(r.reason))
    ensures r.Response? && IsOk(r.status) && r.json.Unparsable? ==> o == Raised(InvalidJson)
    ensures r.Response? && IsOk(r.status) && r.json.NullBody? ==> o == Raised(NullEnvelope)
  {
    match r
    case NetworkFailure(reason) => Thrown(NetworkMessage(reason))
    case Response(status, text, json) =>
      if !IsOk(status) then Thrown(ApiMessage(status, text))
      else
        match json
        case Unparsable => Raised(InvalidJson)
        case NullBody => Raised(NullEnvelope)
        case Body(s, data) =>
          if s != Some("SUCCESS") || data.None? then Thrown(ShapeMessage)
          else Loaded(data.value)
  }

  /** A non-2xx reply is an API error carrying the status and the body text, whatever the body holds. */
  lemma NotOkIsApiError<D>(status: int, text: Option<string>, json: Envelope<D>)
    requires !IsOk(status)
    ensures Classify(Response(status, text, json)) == Thrown(ApiMessage(status, text))
    ensures forall other: Envelope<D> :: Classify(Response(status, text, other)) == Classify(Response(status, text, json))
  {
  }

  /** A 2xx reply whose body is an object but not the success envelope with data is a shape error. */
  lemma BadShapeIsShapeError<D>(status: int, text: Option<string>, s: Option<string>, data: Option<D>)
    requires IsOk(status)
    requires s != Some("SUCCESS") || data.None?
    ensures Classify(Response(status, text, Body(s, data))) == Thrown(ShapeMessage)
  {
  }

  /** A 2xx reply with the success envelope returns its data unchanged, whatever else the reply holds. */
  lemma SuccessReturnsData<D>(status: int, text: Option<string>, data: D)
    requires IsOk(status)
    ensures Classify(Response(status, text, Body(Some("SUCCESS"), Some(data)))) == Loaded(data)
  {
  }

  /** Data is returned exactly for a 2xx reply carrying the success envelope with data. */
  lemma LoadedIff<D>(r: Reply<D>)
    ensures Classify(r).Loaded? <==>
      r.Response? && IsOk(r.status) && r.json.Body? && r.json.status == Some("SUCCESS") && r.json.data.Some?
  {
  }

  /** The API error for an empty or unreadable body names the fallback detail. */
  lemma EmptyBodyDetail(status: int)
    ensures ApiMessage(status, Some("")) == ApiMessage(status, None)
    ensures Detail(None) == FallbackDetail
  {
  }

  /**
   * A network failure can be told apart from every HTTP outcome: its message
   * is never an API error or the shape error, whatever the reply would have been.
   */
  lemma NetworkFailureDistinct<D>(reason: string, r: Reply<D>)
    requires r.Response?
    ensures Classify(Reply<D>.NetworkFailure(reason)) != Classify(r)
  {
    MessagesDistinct(r.status, r.text, reason);
  }

  /** The three messages the page throws can never be confused with one another. */
  lemma MessagesDistinct(status: int, text: Option<string>, reason: string)
    ensures ApiMessage(status, text) != ShapeMessage
    ensures ApiMessage(status, text) != NetworkMessage(reason)
    ensures NetworkMessage(reason) != ShapeMessage
  {
    assert ApiMessage(status, text)[0] == 'A';
    assert ShapeMessage[0] == 'U';
    assert NetworkMessage(reason)[0] == 'N';
  }

  /** A numeral ends where the first ':' stands, so the numeral before it is determined. */
  lemma NumeralBeforeColon(a: string, r1: string, b: string, r2: string)
    requires Numeral(a) && Numeral(b)
    requires a + ":" + r1 == b + ":" + r2
    ensures a == b
  {
    var x := a + ":" + r1;
    assert |a| == |b| by {
      assert x[|a|] == ':';
      assert x[|b|] == ':';
    }
    assert a == x[..|a|];
    assert b == x[..|b|];
  }

  /**
   * The status can be read off an API error: two messages that agree were
   * produced for the same status.
   */
  lemma ApiMessageStatus(s1: int, t1: Option<string>, s2: int, t2: Option<string>)
    requires ApiMessage(s1, t1) == ApiMessage(s2, t2)
    ensures s1 == s2
  {
    var a, b := IntString(s1), IntString(s2);
    var r1, r2 := " " + Detail(t1), " " + Detail(t2);
    NumeralBeforeColon(a, r1, b, r2);
    IntStringInjective(s1, s2);
  }

  /** A 200 reply whose envelope says "ERROR" is an error with a message, never data. */
  lemma ErrorStatusNotLoaded<D>(data: Option<D>)
    ensures Classify(Response(200, None, Body(Some("ERROR"), data))) == Thrown(ShapeMessage)
  {
  }
}
