/** `Response::build`: the status line, a Content-Length line computed from
    the body, one line per header entry in the map's iteration order, a blank
    line, then the body. */
module Responses {
  import opened Text

  datatype Response = Response(
    statusCode: int,
    statusText: string,
    headers: map<string, string>,
    body: string)

  /** A default-constructed `Response`: 200 "OK", no headers, empty body. */
  const DefaultResponse: Response := Response(200, "OK", map[], "")

  const Crlf: string := "\r\n"

  function StatusLine(r: Response): string
  {
    "HTTP/1.1 " + IntToDecimal(r.statusCode) + " " + r.statusText + Crlf
  }

  function ContentLengthLine(r: Response): string
  {
    "Content-Length: " + NatToDecimal(|r.body|) + Crlf
  }

  function HeaderLine(name: string, value: string): string
  {
    name + ": " + value + Crlf
  }

  /** `order` lists every key of `h` exactly once: an iteration order of the
      unordered map. */
  predicate IsOrdering(order: seq<string>, h: map<string, string>)
  {
    (forall i :: 0 <= i < |order| ==> order[i] in h)
    && (forall k :: k in h ==> k in order)
    && (forall i, j :: 0 <= i < j < |order| ==> order[i] != order[j])
  }

  /** The header lines in the order given. */
  function HeaderBlock(h: map<string, string>, order: seq<string>): string
    requires forall i :: 0 <= i < |order| ==> order[i] in h
  {
    if order == [] then []
    else
      var k := order[|order| - 1];
      HeaderBlock(h, order[..|order| - 1]) + HeaderLine(k, h[k])
  }

  /** The bytes `build` returns when the header map is iterated in `order`. */
  function Serialized(r: Response, order: seq<string>): string
    requires forall i :: 0 <= i < |order| ==> order[i] in r.headers
  {
    StatusLine(r) + ContentLengthLine(r) + HeaderBlock(r.headers, order) + Crlf + r.body
  }

  /** `build`: successive appends, with a loop over the header map. The map's
      iteration order is not determined; the ghost `order` reports the one
      taken, and it lists every header exactly once. */
  method Build(r: Response) returns (out: string, ghost order: seq<string>)
    ensures IsOrdering(order, r.headers)
    ensures out == Serialized(r, order)
  {
    out := [];
    out := out + StatusLine(r);
    out := out + ContentLengthLine(r);
    var lines;
    lines, order := WriteHeaders(r.headers);
    out := out + lines;
    out := out + Crlf;
    out := out + r.body;
  }

  /** The loop of `build` over the header map: one line per entry, in the
      order the map yields them. */
  method WriteHeaders(h: map<string, string>) returns (lines: string, ghost order: seq<string>)
    ensures IsOrdering(order, h)
    ensures lines == HeaderBlock(h, order)
  {
    lines := [];
    var remaining := h.Keys;
    order := [];
    while remaining != {}
      invariant forall i :: 0 <= i < |order| ==> order[i] in h && order[i] !in remaining
      invariant forall k :: k in h ==> k in remaining || k in order
      invariant remaining <= h.Keys
      invariant forall i, j :: 0 <= i < j < |order| ==> order[i] != order[j]
      invariant lines == HeaderBlock(h, order)
      decreases |remaining|
    {
      var k :| k in remaining;
      AppendLine(lines, k, h[k]);
      HeaderBlockSnoc(h, order, k);
      lines := lines + k + ": " + h[k] + Crlf;
      order := order + [k];
      remaining := remaining - {k};
    }
  }

  /** The pieces appended one by one make up one header line. */
  lemma AppendLine(out: string, k: string, v: string)
    ensures out + k + ": " + v + Crlf == out + HeaderLine(k, v)
  {
  }

  /** One more key adds its line at the end of the block. */
  lemma HeaderBlockSnoc(h: map<string, string>, order: seq<string>, k: string)
    requires forall i :: 0 <= i < |order| ==> order[i] in h
    requires k in h
    ensures HeaderBlock(h, order + [k]) == HeaderBlock(h, order) + HeaderLine(k, h[k])
  {
    assert (order + [k])[..|order|] == order;
  }

  /** The serialisation is the status line, then the Content-Length line,
      then the header lines, then a blank line, and ends with the body as
      given. */
  lemma SerializedLayout(r: Response, order: seq<string>)
    requires IsOrdering(order, r.headers)
    ensures var out := Serialized(r, order);
            var n := |StatusLine(r)| + |ContentLengthLine(r)|;
            out[..|StatusLine(r)|] == StatusLine(r)
            && out[|StatusLine(r)|..n] == ContentLengthLine(r)
            && out[|out| - |r.body| - 2..] == Crlf + r.body
  {
    FiveParts(StatusLine(r), ContentLengthLine(r), HeaderBlock(r.headers, order), Crlf, r.body);
  }

  /** Where the parts of a concatenation of five strings sit. */
  lemma FiveParts(a: string, b: string, c: string, d: string, e: string)
    ensures var out := a + b + c + d + e;
            out[..|a|] == a && out[|a|..|a| + |b|] == b && out[|out| - |e| - |d|..] == d + e
  {
  }

  /** Every header entry has its own "name: value" line in the block: the
      line for key `order[i]` starts right after the lines of the keys before
      it. */
  lemma {:induction false} HeaderLinePresent(h: map<string, string>, order: seq<string>, i: nat)
    requires forall j :: 0 <= j < |order| ==> order[j] in h
    requires i < |order|
    ensures OccursAt(HeaderBlock(h, order), HeaderLine(order[i], h[order[i]]), |HeaderBlock(h, order[..i])|)
    decreases |order|
  {
    var n := |order|;
    var init := order[..n - 1];
    var line := HeaderLine(order[i], h[order[i]]);
    if i == n - 1 {
      assert order[..i] == init;
      OccursAtEnd(HeaderBlock(h, init), line);
    } else {
      assert init[..i] == order[..i];
      assert init[i] == order[i];
      HeaderLinePresent(h, init, i);
      OccursExtended(HeaderBlock(h, init), HeaderLine(order[n - 1], h[order[n - 1]]), line, |HeaderBlock(h, order[..i])|);
    }
  }

  lemma OccursAtEnd(a: string, k: string)
    ensures OccursAt(a + k, k, |a|)
  {
    assert (a + k)[|a|..|a| + |k|] == k;
  }

  /** The Content-Length line comes from the body, and a caller-supplied
      "Content-Length" header is written as well, later in the block: the
      output then carries two Content-Length lines. */
  lemma SuppliedContentLengthKept(r: Response, order: seq<string>)
    requires IsOrdering(order, r.headers) && "Content-Length" in r.headers
    ensures exists p :: |StatusLine(r)| + |ContentLengthLine(r)| <= p
                        && OccursAt(Serialized(r, order), HeaderLine("Content-Length", r.headers["Content-Length"]), p)
  {
    var i :| 0 <= i < |order| && order[i] == "Content-Length";
    HeaderLinePresent(r.headers, order, i);
    var line := HeaderLine(order[i], r.headers[order[i]]);
    var q := |HeaderBlock(r.headers, order[..i])|;
    OccursInMiddle(StatusLine(r), ContentLengthLine(r), HeaderBlock(r.headers, order), Crlf, r.body, line, q);
    var p := |StatusLine(r)| + |ContentLengthLine(r)| + q;
    assert OccursAt(Serialized(r, order), HeaderLine("Content-Length", r.headers["Content-Length"]), p);
  }

  /** An occurrence in the third of five concatenated strings, shifted by the
      first two. */
  lemma OccursInMiddle(a: string, b: string, c: string, d: string, e: string, k: string, q: nat)
    requires OccursAt(c, k, q)
    ensures OccursAt(a + b + c + d + e, k, |a| + |b| + q)
  {
    OccursShifted(a + b, c, k, |a| + |b| + q);
    OccursExtended(a + b + c, d, k, |a| + |b| + q);
    OccursExtended(a + b + c + d, e, k, |a| + |b| + q);
  }

  lemma DecimalOf200()
    ensures IntToDecimal(200) == "200"
  {
    assert NatToDecimal(2) == "2";
    assert NatToDecimal(20) == NatToDecimal(2) + [DigitChar(0)];
    assert NatToDecimal(200) == NatToDecimal(20) + [DigitChar(0)];
  }

  /** A default response is "HTTP/1.1 200 OK", "Content-Length: 0", and the
      blank line. */
  lemma DefaultSerialization()
    ensures Serialized(DefaultResponse, []) == "HTTP/1.1 200 OK\r\nContent-Length: 0\r\n\r\n"
  {
    DefaultStatusLine();
    DefaultLengthLine();
    assert HeaderBlock(map[], []) == [];
  }

  lemma DefaultStatusLine()
    ensures StatusLine(DefaultResponse) == "HTTP/1.1 200 OK\r\n"
  {
    DecimalOf200();
  }

  lemma DefaultLengthLine()
    ensures ContentLengthLine(DefaultResponse) == "Content-Length: 0\r\n"
  {
    assert NatToDecimal(0) == "0";
  }
}
