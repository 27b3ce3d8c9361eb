/** `HttpParser::parse`: splits a raw request into the request line, the
    header block and the body, the way `std::getline` and `operator>>` on a
    string stream see it. */
module HttpParser {
  import opened Wrappers
  import opened Text

  datatype Request = Request(
    verb: string,
    path: string,
    version: string,
    headers: map<string, string>,
    body: string)

  /** A default-constructed `Request`: every field empty. */
  const EmptyRequest: Request := Request("", "", "", map[], "")

  predicate IsLineEnd(c: char) { c == '\r' || c == '\n' }

  /** `isspace` in the C locale, which is what `operator>>` skips. */
  predicate IsSpace(c: char)
  {
    c == ' ' || c == '\t' || c == '\n' || c == '\U{000B}' || c == '\U{000C}' || c == '\r'
  }

  // ---------------------------------------------------------------------
  // trimCRLF
  // ---------------------------------------------------------------------

  /** `s` without its trailing run of '\r' and '\n': a prefix of `s` that does
      not end in CR or LF, followed in `s` only by CRs and LFs. */
  function Trimmed(s: string): (r: string)
    ensures r <= s
    ensures r == [] || !IsLineEnd(r[|r| - 1])
    ensures forall i :: |r| <= i < |s| ==> IsLineEnd(s[i])
  {
    if |s| > 0 && IsLineEnd(s[|s| - 1]) then Trimmed(s[..|s| - 1]) else s
  }

  /** `trimCRLF`: pops trailing CRs and LFs one at a time. */
  method TrimCrlf(s: string) returns (r: string)
    ensures r == Trimmed(s)
  {
    r := s;
    while |r| > 0 && IsLineEnd(r[|r| - 1])
      invariant Trimmed(r) == Trimmed(s)
      decreases |r|
    {
      r := r[..|r| - 1];
    }
  }

  function TrimAll(ls: seq<string>): (r: seq<string>)
    ensures |r| == |ls| && forall i :: 0 <= i < |ls| ==> r[i] == Trimmed(ls[i])
  {
    seq(|ls|, i requires 0 <= i < |ls| => Trimmed(ls[i]))
  }

  // ---------------------------------------------------------------------
  // std::getline
  // ---------------------------------------------------------------------

  /** Number of characters before the first '\n' (or all of them). */
  function LineLength(s: string): (k: nat)
    ensures k <= |s|
    ensures forall i :: 0 <= i < k ==> s[i] != '\n'
    ensures k < |s| ==> s[k] == '\n'
  {
    if s == [] || s[0] == '\n' then 0 else 1 + LineLength(s[1..])
  }

  /** The lines successive `getline` calls return: the text between
      newlines, where a final newline does not start an extra empty line. */
  function Lines(raw: string): (ls: seq<string>)
    ensures ls == [] <==> raw == []
    decreases |raw|
  {
    if raw == [] then []
    else
      var k := LineLength(raw);
      if k == |raw| then [raw] else [raw[..k]] + Lines(raw[k + 1..])
  }

  /** No line read contains a newline. */
  lemma {:induction false} LinesHaveNoNewline(raw: string)
    ensures forall i :: 0 <= i < |Lines(raw)| ==> '\n' !in Lines(raw)[i]
    decreases |raw|
  {
    if raw != [] {
      var k := LineLength(raw);
      if k < |raw| {
        LinesHaveNoNewline(raw[k + 1..]);
      }
    }
  }

  /** Every line followed by a newline. */
  function Terminated(ls: seq<string>): string
  {
    if ls == [] then [] else ls[0] + "\n" + Terminated(ls[1..])
  }

  /** The lines joined with '\n' between them. */
  function Join(ls: seq<string>): string
  {
    if ls == [] then []
    else if |ls| == 1 then ls[0]
    else ls[0] + "\n" + Join(ls[1..])
  }

  lemma {:induction false} LineLengthOfLine(l: string, rest: string)
    requires '\n' !in l
    ensures LineLength(l + "\n" + rest) == |l|
  {
    if l != [] {
      assert (l + "\n" + rest)[1..] == l[1..] + "\n" + rest;
      LineLengthOfLine(l[1..], rest);
    }
  }

  /** A line followed by a newline is read as that line. */
  lemma LinesOfLineBreak(l: string, rest: string)
    requires '\n' !in l
    ensures Lines(l + "\n" + rest) == [l] + Lines(rest)
  {
    var s := l + "\n" + rest;
    LineLengthOfLine(l, rest);
    assert s[..|l|] == l;
    assert s[|l| + 1..] == rest;
  }

  /** `getline` undoes `Terminated`: newline-free lines, each written with a
      newline, read back as the same lines. */
  lemma {:induction false} LinesOfTerminated(ls: seq<string>)
    requires forall i :: 0 <= i < |ls| ==> '\n' !in ls[i]
    ensures Lines(Terminated(ls)) == ls
  {
    if ls != [] {
      LinesOfTerminated(ls[1..]);
      LinesOfLineBreak(ls[0], Terminated(ls[1..]));
      assert [ls[0]] + ls[1..] == ls;
    }
  }

  /** And conversely: writing back the lines read gives the input, with a
      final newline added when it lacked one. */
  lemma {:induction false} TerminatedOfLines(raw: string)
    ensures Terminated(Lines(raw)) == if raw == [] || raw[|raw| - 1] == '\n' then raw else raw + "\n"
    decreases |raw|
  {
    if raw != [] {
      var k := LineLength(raw);
      if k == |raw| {
        assert Lines(raw) == [raw];
        assert Terminated([raw]) == raw + "\n" + Terminated([]);
      } else {
        var rest := raw[k + 1..];
        TerminatedOfLines(rest);
        LinesSplit(raw, k);
        TerminatedCons(raw[..k], Lines(rest));
        LastOfBreak(raw, k);
      }
    }
  }

  /** A line cut at its first newline `k`. */
  lemma LinesSplit(raw: string, k: nat)
    requires raw != [] && k == LineLength(raw) && k < |raw|
    ensures Lines(raw) == [raw[..k]] + Lines(raw[k + 1..])
  {
  }

  lemma TerminatedCons(l: string, ls: seq<string>)
    ensures Terminated([l] + ls) == l + "\n" + Terminated(ls)
  {
    assert ([l] + ls)[1..] == ls;
  }

  /** Text cut around a newline at `k`: the pieces rebuild it, and its last
      character is the newline or the last character of what follows. */
  lemma LastOfBreak(raw: string, k: nat)
    requires k < |raw| && raw[k] == '\n'
    ensures raw == raw[..k] + "\n" + raw[k + 1..]
    ensures raw[k + 1..] == [] ==> raw[|raw| - 1] == '\n'
    ensures raw[k + 1..] != [] ==> raw[|raw| - 1] == raw[k + 1..][|raw[k + 1..]| - 1]
  {
  }

  lemma {:induction false} TerminatedSnoc(ls: seq<string>, l: string)
    ensures Terminated(ls + [l]) == Terminated(ls) + l + "\n"
  {
    if ls != [] {
      assert (ls + [l])[1..] == ls[1..] + [l];
      TerminatedSnoc(ls[1..], l);
    } else {
      assert Terminated([l]) == l + "\n" + Terminated([]);
    }
  }

  /** Writing every line with a newline is the joined text plus one final
      newline. */
  lemma {:induction false} TerminatedIsJoin(ls: seq<string>)
    requires ls != []
    ensures Terminated(ls) == Join(ls) + "\n"
  {
    if |ls| > 1 {
      TerminatedIsJoin(ls[1..]);
    } else {
      assert Terminated(ls) == ls[0] + "\n" + Terminated([]);
    }
  }

  /** `std::getline(stream, line)` from position `pos`: fails only at the end
      of the input; otherwise yields the next line and the position after its
      newline. */
  method GetLine(raw: string, pos: nat) returns (ok: bool, line: string, next: nat)
    requires pos <= |raw|
    ensures ok <==> pos < |raw|
    ensures ok ==> pos < next <= |raw| && Lines(raw[pos..]) == [line] + Lines(raw[next..])
    ensures !ok ==> next == pos && Lines(raw[pos..]) == []
  {
    if pos == |raw| {
      return false, "", pos;
    }
    var i := pos;
    while i < |raw| && raw[i] != '\n'
      invariant pos <= i <= |raw|
      invariant forall j :: pos <= j < i ==> raw[j] != '\n'
    {
      i := i + 1;
    }
    ok := true;
    line := raw[pos..i];
    var s := raw[pos..];
    if i < |raw| {
      next := i + 1;
      assert s == line + "\n" + raw[next..];
      LinesOfLineBreak(line, raw[next..]);
    } else {
      next := i;
      assert LineLength(s) == |s|;
      assert s == line;
    }
  }

  // ---------------------------------------------------------------------
  // The request line: `firstLine >> method >> path >> version`
  // ---------------------------------------------------------------------

  /** A token `operator>>` can extract: non-empty, no whitespace. */
  predicate IsWord(w: string)
  {
    |w| > 0 && forall i :: 0 <= i < |w| ==> !IsSpace(w[i])
  }

  /** Length of the leading run of non-whitespace characters. */
  function WordLength(s: string): (k: nat)
    ensures k <= |s|
    ensures forall i :: 0 <= i < k ==> !IsSpace(s[i])
    ensures k < |s| ==> IsSpace(s[k])
  {
    if s == [] || IsSpace(s[0]) then 0 else 1 + WordLength(s[1..])
  }

  /** The whitespace-separated tokens of `s`, in order. */
  function Tokens(s: string): (ts: seq<string>)
    ensures forall i :: 0 <= i < |ts| ==> IsWord(ts[i])
    decreases |s|
  {
    if s == [] then []
    else if IsSpace(s[0]) then Tokens(s[1..])
    else
      var k := WordLength(s);
      [s[..k]] + Tokens(s[k..])
  }

  /** The `i`-th token, or "" when extraction ran out of tokens. */
  function Token(ts: seq<string>, i: nat): string
  {
    if i < |ts| then ts[i] else ""
  }

  lemma {:induction false} WordLengthOfWord(w: string, rest: string)
    requires IsWord(w) || w == []
    requires rest == [] || IsSpace(rest[0])
    ensures WordLength(w + rest) == |w|
  {
    if w != [] {
      assert (w + rest)[1..] == w[1..] + rest;
      WordLengthOfWord(w[1..], rest);
    }
  }

  lemma TokensOfWord(w: string, rest: string)
    requires IsWord(w)
    requires rest == [] || IsSpace(rest[0])
    ensures Tokens(w + rest) == [w] + Tokens(rest)
  {
    WordLengthOfWord(w, rest);
    assert (w + rest)[..|w|] == w;
    assert (w + rest)[|w|..] == rest;
  }

  lemma TokensSkipSpace(s: string)
    requires s != [] && IsSpace(s[0])
    ensures Tokens(s) == Tokens(s[1..])
  {
  }

  /** A word, then a space, then `rest`. */
  lemma TokensOfSpacedWord(w: string, rest: string)
    requires IsWord(w)
    ensures Tokens(w + " " + rest) == [w] + Tokens(rest)
  {
    var tail := " " + rest;
    assert w + " " + rest == w + tail;
    TokensOfWord(w, tail);
    TokensSkipSpace(tail);
    assert tail[1..] == rest;
  }

  /** Reading back a request line written as three words separated by single
      spaces gives the three words. */
  lemma RequestLineRoundTrip(m: string, p: string, v: string)
    requires IsWord(m) && IsWord(p) && IsWord(v)
    ensures Tokens(m + " " + p + " " + v) == [m, p, v]
  {
    TokensOfWord(v, []);
    assert v + [] == v;
    TokensOfSpacedWord(p, v);
    var pv := p + " " + v;
    TokensOfSpacedWord(m, pv);
    assert m + " " + p + " " + v == m + " " + pv;
  }

  /** `trimCRLF` leaves an extracted token unchanged. */
  lemma TrimmedWord(w: string)
    requires IsWord(w)
    ensures Trimmed(w) == w
  {
    assert !IsSpace(w[|w| - 1]);
  }

  /** Request-line parsing: the trimmed line is tokenised and the first three
      tokens, each put through `trimCRLF`, become method, path and version. */
  method ParseRequestLine(line: string) returns (verb: string, path: string, version: string)
    ensures var ts := Tokens(Trimmed(line));
            verb == Token(ts, 0) && path == Token(ts, 1) && version == Token(ts, 2)
  {
    var l := TrimCrlf(line);
    var ts := Tokens(l);
    if |ts| > 0 { TrimmedWord(ts[0]); }
    if |ts| > 1 { TrimmedWord(ts[1]); }
    if |ts| > 2 { TrimmedWord(ts[2]); }
    verb := TrimCrlf(Token(ts, 0));
    path := TrimCrlf(Token(ts, 1));
    version := TrimCrlf(Token(ts, 2));
  }

  // ---------------------------------------------------------------------
  // Header lines
  // ---------------------------------------------------------------------

  /** `s` without its leading spaces (only ' ', not tabs). */
  function StripLeadingSpaces(s: string): (r: string)
    ensures |r| <= |s| && r == s[|s| - |r|..]
    ensures r == [] || r[0] != ' '
    ensures forall i :: 0 <= i < |s| - |r| ==> s[i] == ' '
  {
    if s != [] && s[0] == ' ' then StripLeadingSpaces(s[1..]) else s
  }

  /** The erase-front loop on the header value. */
  method DropLeadingSpaces(s: string) returns (r: string)
    ensures r == StripLeadingSpaces(s)
  {
    r := s;
    while r != [] && r[0] == ' '
      invariant StripLeadingSpaces(r) == StripLeadingSpaces(s)
      decreases |r|
    {
      r := r[1..];
    }
  }

  /** The (key, value) a CR-trimmed header line contributes: nothing without a
      ':'; otherwise the text before the first ':' and the text after it with
      leading spaces removed, both CR-trimmed. */
  function HeaderEntry(line: string): (e: Option<(string, string)>)
    ensures e.None? <==> ':' !in line
    ensures e.Some? ==> ':' !in e.value.0
  {
    match IndexOfChar(line, ':')
    case None => None
    case Some(c) => Some((Trimmed(line[..c]), Trimmed(StripLeadingSpaces(line[c + 1..]))))
  }

  lemma {:induction false} FirstColonAfter(k: string, rest: string)
    requires ':' !in k && rest != [] && rest[0] == ':'
    ensures IndexOfChar(k + rest, ':') == Some(|k|)
  {
    if k != [] {
      assert (k + rest)[0] == k[0];
      assert (k + rest)[1..] == k[1..] + rest;
      FirstColonAfter(k[1..], rest);
    }
  }

  lemma HeaderEntryOfSplit(line: string, c: nat, k: string, v: string)
    requires IndexOfChar(line, ':') == Some(c)
    requires line[..c] == k && StripLeadingSpaces(line[c + 1..]) == v
    requires Trimmed(k) == k && Trimmed(v) == v
    ensures HeaderEntry(line) == Some((k, v))
  {
  }

  lemma StripOneSpace(v: string)
    requires v == [] || v[0] != ' '
    ensures StripLeadingSpaces(" " + v) == v
  {
    assert (" " + v)[1..] == v;
  }

  lemma ColonOfField(k: string, v: string)
    requires ':' !in k
    ensures IndexOfChar(k + ": " + v, ':') == Some(|k|)
  {
    assert k + ": " + v == k + (": " + v);
    FirstColonAfter(k, ": " + v);
  }

  lemma ValueOfField(k: string, v: string)
    requires v == [] || v[0] != ' '
    ensures StripLeadingSpaces((k + ": " + v)[|k| + 1..]) == v
  {
    assert (k + ": " + v)[|k| + 1..] == " " + v;
    StripOneSpace(v);
  }

  lemma KeyOfField(k: string, v: string)
    ensures (k + ": " + v)[..|k|] == k
  {
  }

  lemma TrimmedUnchanged(s: string)
    requires s == [] || !IsLineEnd(s[|s| - 1])
    ensures Trimmed(s) == s
  {
  }

  /** A field written as "key: value" reads back as (key, value) when the key
      has no ':' and does not end in CR or LF, and the value neither starts
      with a space nor ends in CR or LF. */
  lemma HeaderEntryRoundTrip(k: string, v: string)
    requires ':' !in k && (k == [] || !IsLineEnd(k[|k| - 1]))
    requires v == [] || (v[0] != ' ' && !IsLineEnd(v[|v| - 1]))
    ensures HeaderEntry(k + ": " + v) == Some((k, v))
  {
    var line := k + ": " + v;
    ColonOfField(k, v);
    ValueOfField(k, v);
    KeyOfField(k, v);
    TrimmedUnchanged(k);
    TrimmedUnchanged(v);
    HeaderEntryOfSplit(line, |k|, k, v);
  }

  /** The header method: a colon-free line gives nothing; otherwise the key,
      then the value after the colon with its leading spaces erased, both
      CR-trimmed. */
  method ParseHeaderLine(line: string) returns (e: Option<(string, string)>)
    ensures e == HeaderEntry(line)
  {
    var colon := IndexOfChar(line, ':');
    if colon.None? {
      return None;
    }
    var key := line[..colon.value];
    var value := line[colon.value + 1..];
    value := DropLeadingSpaces(value);
    key := TrimCrlf(key);
    value := TrimCrlf(value);
    e := Some((key, value));
  }

  /** What each header-block line contributes, after CR trimming. */
  function Fields(lines: seq<string>): (es: seq<Option<(string, string)>>)
    ensures |es| == |lines| && forall i :: 0 <= i < |lines| ==> es[i] == HeaderEntry(Trimmed(lines[i]))
  {
    seq(|lines|, i requires 0 <= i < |lines| => HeaderEntry(Trimmed(lines[i])))
  }

  predicate Carries(e: Option<(string, string)>, k: string)
  {
    e.Some? && e.value.0 == k
  }

  /** `req.headers` after assigning each contributed entry in turn. */
  function Assign(es: seq<Option<(string, string)>>): map<string, string>
  {
    if es == [] then map[]
    else
      var m := Assign(es[..|es| - 1]);
      match es[|es| - 1]
      case None => m
      case Some((k, v)) => m[k := v]
  }

  /** A key is present exactly when some header line carries it. */
  lemma {:induction false} AssignKeys(es: seq<Option<(string, string)>>, k: string)
    ensures k in Assign(es) <==> exists j :: 0 <= j < |es| && Carries(es[j], k)
  {
    if es != [] {
      var n := |es|;
      var init := es[..n - 1];
      AssignKeys(init, k);
      if k in Assign(es) && !Carries(es[n - 1], k) {
        var j :| 0 <= j < |init| && Carries(init[j], k);
        assert es[j] == init[j];
      }
      if j :| 0 <= j < n - 1 && Carries(es[j], k) {
        assert init[j] == es[j];
      }
    }
  }

  /** For a repeated key, the value of its last line wins. */
  lemma {:induction false} AssignLastWins(es: seq<Option<(string, string)>>, j: nat, k: string)
    requires j < |es| && Carries(es[j], k)
    requires forall j' :: j < j' < |es| ==> !Carries(es[j'], k)
    ensures k in Assign(es) && Assign(es)[k] == es[j].value.1
  {
    var n := |es|;
    var init := es[..n - 1];
    if j < n - 1 {
      assert forall j' :: j < j' < |init| ==> init[j'] == es[j'];
      AssignLastWins(init, j, k);
      assert !Carries(es[n - 1], k);
    }
  }

  // ---------------------------------------------------------------------
  // parse
  // ---------------------------------------------------------------------

  /** Where the header block ends among the lines after the request line:
      the first line that is empty after CR trimming, or the end. */
  function HeaderEnd(rest: seq<string>): (h: nat)
    ensures h <= |rest|
    ensures forall j :: 0 <= j < h ==> Trimmed(rest[j]) != []
    ensures h < |rest| ==> Trimmed(rest[h]) == []
  {
    if rest == [] || Trimmed(rest[0]) == [] then 0 else 1 + HeaderEnd(rest[1..])
  }

  lemma {:induction false} HeaderEndUnique(rest: seq<string>, h: nat)
    requires h <= |rest|
    requires forall j :: 0 <= j < h ==> Trimmed(rest[j]) != []
    requires h < |rest| ==> Trimmed(rest[h]) == []
    ensures HeaderEnd(rest) == h
  {
    if h > 0 {
      assert Trimmed(rest[0]) != [];
      HeaderEndUnique(rest[1..], h - 1);
    }
  }

  /** The request a raw text parses to: method, path and version are the
      first three tokens of the first line (missing ones empty); the header
      block runs to the first blank line; the body is every line after that
      blank line, CR-trimmed, joined with '\n'. */
  function Parsed(raw: string): Request
  {
    var ls := Lines(raw);
    if ls == [] then EmptyRequest
    else
      var ts := Tokens(Trimmed(ls[0]));
      var rest := ls[1..];
      var h := HeaderEnd(rest);
      var bodyLines := if h < |rest| then rest[h + 1..] else [];
      Request(Token(ts, 0), Token(ts, 1), Token(ts, 2),
              Assign(Fields(rest[..h])), Join(TrimAll(bodyLines)))
  }

  lemma NextLine(rest: seq<string>, j: nat, line: string, tail: seq<string>)
    requires j <= |rest| && rest[j..] == [line] + tail
    ensures j < |rest| && line == rest[j] && tail == rest[j + 1..]
  {
    assert rest[j..][0] == line;
    assert rest[j..][1..] == tail;
  }

  lemma BodyStep(rest: seq<string>, j: nat)
    requires j < |rest|
    ensures Terminated(TrimAll(rest[..j + 1])) == Terminated(TrimAll(rest[..j])) + Trimmed(rest[j]) + "\n"
  {
    assert TrimAll(rest[..j + 1]) == TrimAll(rest[..j]) + [Trimmed(rest[j])];
    TerminatedSnoc(TrimAll(rest[..j]), Trimmed(rest[j]));
  }

  lemma HeaderStep(rest: seq<string>, j: nat)
    requires j < |rest|
    ensures var m := Assign(Fields(rest[..j]));
            Assign(Fields(rest[..j + 1])) == match HeaderEntry(Trimmed(rest[j]))
                                             case None => m
                                             case Some((k, v)) => m[k := v]
  {
    var es := Fields(rest[..j + 1]);
    assert es[..j] == Fields(rest[..j]);
  }

  /** One `getline` followed by `trimCRLF`, tracked against the lines still
      to be read. */
  method NextTrimmedLine(raw: string, pos: nat, ghost rest: seq<string>, ghost j: nat)
    returns (more: bool, line: string, next: nat)
    requires pos <= |raw| && j <= |rest| && Lines(raw[pos..]) == rest[j..]
    ensures more <==> j < |rest|
    ensures more ==> line == Trimmed(rest[j]) && pos < next <= |raw| && Lines(raw[next..]) == rest[j + 1..]
  {
    more, line, next := GetLine(raw, pos);
    if more {
      NextLine(rest, j, line, Lines(raw[next..]));
      line := TrimCrlf(line);
    }
  }

  /** The header loop of `parse`: reads lines from `pos0` until one is blank
      after CR trimming (consuming it) or the input ends; a line without ':'
      is skipped, any other assigns its key. */
  method ReadHeaders(raw: string, pos0: nat, ghost rest: seq<string>)
    returns (headers: map<string, string>, pos: nat, ghost used: nat)
    requires pos0 <= |raw| && Lines(raw[pos0..]) == rest
    ensures pos <= |raw| && used <= |rest| && Lines(raw[pos..]) == rest[used..]
    ensures var h := HeaderEnd(rest);
            headers == Assign(Fields(rest[..h])) && used == (if h < |rest| then h + 1 else h)
  {
    headers := map[];
    pos := pos0;
    var j: nat := 0;
    while true
      invariant pos <= |raw| && j <= |rest|
      invariant Lines(raw[pos..]) == rest[j..]
      invariant forall l :: 0 <= l < j ==> Trimmed(rest[l]) != []
      invariant headers == Assign(Fields(rest[..j]))
      decreases |raw| - pos
    {
      var more, line, next := NextTrimmedLine(raw, pos, rest, j);
      if !more {
        HeaderEndUnique(rest, j);
        used := j;
        return;
      }
      pos := next;
      if line == [] {
        HeaderEndUnique(rest, j);
        used := j + 1;
        return;
      }
      var e := ParseHeaderLine(line);
      HeaderStep(rest, j);
      match e {
        case None =>
        case Some((k, v)) => headers := headers[k := v];
      }
      j := j + 1;
    }
  }

  /** The body loop of `parse`: appends every remaining line, CR-trimmed, and
      a '\n', then drops the final '\n'; the result is the lines joined. */
  method ReadBody(raw: string, pos0: nat, ghost rest: seq<string>) returns (body: string)
    requires pos0 <= |raw| && Lines(raw[pos0..]) == rest
    ensures body == Join(TrimAll(rest))
  {
    body := "";
    var pos := pos0;
    var j: nat := 0;
    while true
      invariant pos <= |raw| && j <= |rest|
      invariant Lines(raw[pos..]) == rest[j..]
      invariant body == Terminated(TrimAll(rest[..j]))
      decreases |raw| - pos
    {
      var more, line, next := NextTrimmedLine(raw, pos, rest, j);
      if !more {
        break;
      }
      BodyStep(rest, j);
      body := body + line;
      body := body + "\n";
      pos := next;
      j := j + 1;
    }
    assert rest[..j] == rest;
    if rest != [] {
      TerminatedIsJoin(TrimAll(rest));
    }
    if |body| > 0 && body[|body| - 1] == '\n' {
      body := body[..|body| - 1];
    }
  }

  /** `HttpParser::parse`: a `getline` for the request line, then the header
      loop, then the body loop, all reading the same stream. */
  method Parse(raw: string) returns (req: Request)
    ensures req == Parsed(raw)
  {
    ghost var ls := Lines(raw);
    var verb, path, version := "", "", "";
    assert raw[0..] == raw;
    var ok, line, pos := GetLine(raw, 0);
    ghost var rest := ls;
    if ok {
      verb, path, version := ParseRequestLine(line);
      rest := ls[1..];
    }
    var headers, pos', used := ReadHeaders(raw, pos, rest);
    var body := ReadBody(raw, pos', rest[used..]);
    req := Request(verb, path, version, headers, body);
  }

  /** An empty input leaves every field of the request empty. */
  lemma EmptyInputParse()
    ensures Parsed("") == EmptyRequest
  {
  }

  lemma LinesOfCrlfPair(first: string)
    requires '\n' !in first
    ensures Lines(first + "\r\n\r\n") == [first + "\r", "\r"]
  {
    var line := first + "\r";
    assert first + "\r\n\r\n" == line + "\n" + "\r\n";
    LinesOfLineBreak(line, "\r\n");
    LinesOfCrlf();
  }

  lemma LinesOfCrlf()
    ensures Lines("\r\n") == ["\r"]
  {
    assert "\r\n" == "\r" + "\n" + "";
    LinesOfLineBreak("\r", "");
  }

  lemma NoNewlineInRequestLine(m: string, p: string, v: string)
    requires IsWord(m) && IsWord(p) && IsWord(v)
    ensures '\n' !in m + " " + p + " " + v
  {
    assert IsSpace('\n');
    assert '\n' !in m && '\n' !in p && '\n' !in v;
  }

  lemma TrimCr(first: string)
    requires first != [] && !IsLineEnd(first[|first| - 1])
    ensures Trimmed(first + "\r") == first
  {
    assert (first + "\r")[..|first|] == first;
  }

  /** A bare request line ending in CRLF followed by the blank CRLF line
      parses to its three words, no headers and an empty body. */
  lemma BareRequestParse(m: string, p: string, v: string)
    requires IsWord(m) && IsWord(p) && IsWord(v)
    ensures Parsed(m + " " + p + " " + v + "\r\n\r\n") == Request(m, p, v, map[], "")
  {
    var first := m + " " + p + " " + v;
    NoNewlineInRequestLine(m, p, v);
    LinesOfCrlfPair(first);
    assert first[|first| - 1] == v[|v| - 1];
    TrimCr(first);
    RequestLineRoundTrip(m, p, v);
    assert Trimmed("\r") == [];
    assert HeaderEnd(["\r"]) == 0;
  }
}
