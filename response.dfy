/** The response (core/Response.php): status, headers and content,
    and what `send` writes out. */
module Responses {
  import opened Wrappers
  import opened PhpStrings
  import opened PhpArrays

  /** The abstract value of a response. `content` is None until
      `setContent` is called (the PHP field starts as null). */
  datatype ResponseState = ResponseState(
    statusCode: int,
    statusText: string,
    headers: OMap<string, string>,
    content: Option<string>)

  /** A new `Response`: 200 OK, no headers, no content. */
  const Fresh: ResponseState := ResponseState(200, "OK", [], None)

  /** `header('HTTP/2 ' . code . ' ' . text)`. */
  function StatusLine(code: int, text: string): string
  {
    "HTTP/2 " + IntToString(code) + " " + text
  }

  /** One `name: value` line per header, in the array's order. */
  function HeaderLines(headers: OMap<string, string>): (lines: seq<string>)
    ensures |lines| == |headers|
    ensures forall i :: 0 <= i < |headers| ==> lines[i] == headers[i].0 + ": " + headers[i].1
  {
    if headers == [] then []
    else HeaderLines(headers[..|headers| - 1]) + [headers[|headers| - 1].0 + ": " + headers[|headers| - 1].1]
  }

  /** What `send` writes: the status line, the header lines, then the
      content (`echo null` writes nothing). */
  function Output(s: ResponseState): (lines: seq<string>)
    ensures |lines| == |s.headers| + 2
    ensures lines[0] == StatusLine(s.statusCode, s.statusText)
    ensures lines[1..|lines| - 1] == HeaderLines(s.headers)
    ensures lines[|lines| - 1] == s.content.GetOr("")
  {
    [StatusLine(s.statusCode, s.statusText)] + HeaderLines(s.headers) + [s.content.GetOr("")]
  }

  /** Setting a header twice keeps the later value, at the first one's place. */
  lemma {:induction false} HeaderOverwrite(headers: OMap<string, string>, name: string, first: string, second: string)
    ensures Put(Put(headers, name, first), name, second) == Put(headers, name, second)
  {
    var once := Put(headers, name, first);
    if HasKey(headers, name) {
      var i := IndexOfKey(headers, name);
      IndexOfKeyAt(once, name, i);
    } else {
      assert forall j :: 0 <= j < |headers| ==> once[j] == headers[j];
      IndexOfKeyAt(once, name, |headers|);
    }
  }

  /** After `setHttpHeader(n, v)` the output carries the line `n: v`. */
  lemma HeaderSent(s: ResponseState, name: string, value: string)
    ensures name + ": " + value in Output(s.(headers := Put(s.headers, name, value)))[1..]
  {
    var h := Put(s.headers, name, value);
    PutGetSame(s.headers, name, value);
    var i := IndexOfKey(h, name);
    assert h[i] == (name, value);
    var out := Output(s.(headers := h));
    assert out[1..][i] == HeaderLines(h)[i];
  }

  class Response {
    var statusCode: int
    var statusText: string
    var headers: OMap<string, string>
    var content: Option<string>

    function State(): ResponseState
      reads this
    {
      ResponseState(statusCode, statusText, headers, content)
    }

    constructor ()
      ensures State() == Fresh
    {
      statusCode := 200;
      statusText := "OK";
      headers := [];
      content := None;
    }

    /** `setContent($content)`; a null content is None. */
    method SetContent(c: Option<string>)
      modifies this
      ensures State() == old(State()).(content := c)
    {
      content := c;
    }

    /** `setStatusCode($code, $text)`; the text defaults to "". */
    method SetStatusCode(code: int, text: string := "")
      modifies this
      ensures State() == old(State()).(statusCode := code, statusText := text)
    {
      statusCode := code;
      statusText := text;
    }

    /** `setHttpHeader($name, $value)`. */
    method SetHttpHeader(name: string, value: string)
      modifies this
      ensures State() == old(State()).(headers := Put(old(headers), name, value))
    {
      headers := Put(headers, name, value);
    }

    /** `send($debug)`: the lines written by `header` and `echo`, in order. */
    method Send(debug: bool) returns (lines: seq<string>)
      ensures lines == Output(State())
    {
      lines := [StatusLine(statusCode, statusText)];
      var i := 0;
      while i < |headers|
        invariant 0 <= i <= |headers|
        invariant lines == [StatusLine(statusCode, statusText)] + HeaderLines(headers[..i])
      {
        var name := headers[i].0;
        var value := headers[i].1;
        assert headers[..i + 1][..i] == headers[..i];
        lines := lines + [name + ": " + value];
        i := i + 1;
      }
      assert headers[..|headers|] == headers;
      lines := lines + [content.GetOr("")];
    }
  }
}
