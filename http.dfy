/**
 * The request/response vocabulary of the pages: what a submit hands to
 * `fetch` or `$.ajax` (method, URL, body) and what comes back (a status and
 * its text, or a transport failure). Transport itself is outside the model;
 * a response is an input.
 */
module Http {

  datatype Verb = GET | POST | PUT | DELETE

  /** A request as the page issues it. */
  datatype Request<B> = Request(verb: Verb, url: string, body: B)

  /** What a request produced: an HTTP status with the response text, or a failure before any status. */
  datatype Response = Status(code: int, text: string) | NetworkError(message: string)

  /** One part of a multipart `FormData` body. */
  datatype Part = Text(value: string) | File(fileName: string)

  /** A `FormData` body: its parts in the order they were appended. */
  type FormData = seq<(string, Part)>

  /** A toast or dialog shown to the user. */
  datatype Notice = Success(text: string) | Error(text: string) | Warning(title: string, text: string)

  /** `response.ok` of the Fetch standard: a status in 200..299. */
  predicate Ok(status: int) {
    200 <= status <= 299
  }

  /** jQuery's rule for running `success` rather than `error`: a 2xx status or 304. */
  predicate AjaxSucceeds(status: int) {
    200 <= status <= 299 || status == 304
  }

  /** The names of a multipart body's parts, in order. */
  function PartNames(f: FormData): (r: seq<string>)
    ensures |r| == |f|
    ensures forall i :: 0 <= i < |f| ==> r[i] == f[i].0
  {
    if f == [] then [] else [f[0].0] + PartNames(f[1..])
  }

  /** How many parts of a body carry a given name. */
  function PartCount(f: FormData, name: string): nat {
    if f == [] then 0 else (if f[0].0 == name then 1 else 0) + PartCount(f[1..], name)
  }

  lemma {:induction false} PartCountAppend(f: FormData, g: FormData, name: string)
    ensures PartCount(f + g, name) == PartCount(f, name) + PartCount(g, name)
  {
    if f != [] {
      PartCountAppend(f[1..], g, name);
      assert (f + g)[1..] == f[1..] + g;
    } else {
      assert f + g == g;
    }
  }
}
