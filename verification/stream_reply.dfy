/** The streamed reply of `speakToLlama` (js/interface.js): the generate
    endpoint answers with newline-delimited JSON, read chunk by chunk; each
    chunk is split at `\n`, blank lines are dropped, every line is parsed on
    its own, and the truthy `response` members are appended to the text on
    display. Chunks are taken already decoded to text, and `JSON.parse` is a
    parameter (`None` where it throws). */
module StreamReply {
  import opened Wrappers
  import opened Json
  import opened Seqs

  /** The characters `String.prototype.trim` removes: the ECMAScript
      WhiteSpace and LineTerminator code points. */
  predicate IsJsSpace(c: char)
  {
    var n := c as int;
    n == 0x09 || n == 0x0A || n == 0x0B || n == 0x0C || n == 0x0D || n == 0x20 ||
    n == 0xA0 || n == 0x1680 || (0x2000 <= n <= 0x200A) || n == 0x2028 || n == 0x2029 ||
    n == 0x202F || n == 0x205F || n == 0x3000 || n == 0xFEFF
  }

  /** `!line.trim()`: the line is empty or whitespace only. */
  predicate Blank(line: string)
  {
    line == [] || (IsJsSpace(line[0]) && Blank(line[1..]))
  }


  /** `s.split('\n')`: the pieces between newlines, at least one. */
  function Split(s: string): (parts: seq<string>)
    ensures |parts| >= 1
  {
    if s == [] then [""]
    else
      var rest := Split(s[1..]);
      if s[0] == '\n' then [""] + rest
      else [[s[0]] + rest[0]] + rest[1..]
  }

  /** No piece holds a newline. */
  predicate NoNewlines(parts: seq<string>)
  {
    forall i :: 0 <= i < |parts| ==> '\n' !in parts[i]
  }

  /** The pieces of a split hold no newline. */
  lemma {:induction false} SplitHasNoNewlines(s: string)
    ensures NoNewlines(Split(s))
  {
    if s != [] {
      SplitHasNoNewlines(s[1..]);
    }
  }

  /** `parts.join('\n')`. */
  function JoinLines(parts: seq<string>): string
    requires |parts| >= 1
  {
    if |parts| == 1 then parts[0] else parts[0] + "\n" + JoinLines(parts[1..])
  }

  /** Splitting and joining again gives the text back. */
  lemma {:induction false} JoinSplit(s: string)
    ensures JoinLines(Split(s)) == s
  {
    if s != [] {
      JoinSplit(s[1..]);
      var rest := Split(s[1..]);
      if s[0] == '\n' {
        TailOfCons("", rest);
      } else {
        TailOfCons([s[0]] + rest[0], rest[1..]);
        if |rest| > 1 {
          assert JoinLines(rest) == rest[0] + "\n" + JoinLines(rest[1..]);
        }
      }
    }
  }

  /** A prefix without newlines becomes the start of the first piece. */
  lemma {:induction false} SplitPrefix(p: string, t: string)
    requires '\n' !in p
    ensures Split(p + t) == [p + Split(t)[0]] + Split(t)[1..]
  {
    var q := Split(t);
    if p == [] {
      assert p + t == t && p + q[0] == q[0];
      FirstSplit(q);
    } else {
      SplitPrefix(p[1..], t);
      assert (p + t)[0] == p[0] && p[0] != '\n';
      assert (p + t)[1..] == p[1..] + t;
      var rest := Split(p[1..] + t);
      TailOfCons(p[1..] + q[0], q[1..]);
      assert [p[0]] + (p[1..] + q[0]) == p + q[0];
    }
  }

  /** Joining newline-free pieces and splitting again gives the pieces back:
      with `JoinSplit`, `Split` is a bijection onto such piece lists. */
  lemma {:induction false} SplitJoin(parts: seq<string>)
    requires |parts| >= 1
    requires NoNewlines(parts)
    ensures Split(JoinLines(parts)) == parts
  {
    if |parts| == 1 {
      SplitPrefix(parts[0], "");
      assert parts[0] + "" == parts[0];
      OnlyElement(parts);
      AppendEmpty([parts[0]]);
    } else {
      SplitJoin(parts[1..]);
      var tail := "\n" + JoinLines(parts[1..]);
      assert tail[0] == '\n' && tail[1..] == JoinLines(parts[1..]);
      TailOfCons("", parts[1..]);
      SplitPrefix(parts[0], tail);
      assert parts[0] + "" == parts[0];
      assert parts[0] + tail == JoinLines(parts);
      FirstSplit(parts);
    }
  }

  lemma {:induction false} JoinLinesAppend(a: seq<string>, b: seq<string>)
    requires |a| >= 1 && |b| >= 1
    ensures JoinLines(a + b) == JoinLines(a) + "\n" + JoinLines(b)
  {
    TailOfAppend(a, b);
    if |a| > 1 {
      JoinLinesAppend(a[1..], b);
    } else {
      AppendEmpty(b);
    }
  }

  /** Pieces without newlines, listed one after the other, still have none. */
  lemma NoNewlinesAppend(a: seq<string>, b: seq<string>)
    requires NoNewlines(a) && NoNewlines(b)
    ensures NoNewlines(a + b)
  {
    forall i | 0 <= i < |a + b|
      ensures '\n' !in (a + b)[i]
    {
      if i >= |a| {
        assert (a + b)[i] == b[i - |a|];
      }
    }
  }

  /** Joining the complete pieces of `p` with the pieces of its last piece
      continued by `c` spells the joined `p` followed by `c`. */
  lemma JoinAfterAppend(p: seq<string>, c: string)
    requires |p| >= 1
    ensures JoinLines(p[..|p| - 1] + Split(p[|p| - 1] + c)) == JoinLines(p) + c
  {
    var init, last := p[..|p| - 1], p[|p| - 1];
    JoinSplit(last + c);
    LastSplit(p);
    if init != [] {
      JoinLinesAppend(init, Split(last + c));
      JoinLinesAppend(init, [last]);
      assert JoinLines([last]) == last;
    } else {
      AppendEmpty(Split(last + c));
      AppendEmpty([last]);
      assert JoinLines([last]) == last;
    }
  }

  /** The complete pieces of newline-free `p` followed by the pieces of its
      continued last piece are newline-free too. */
  lemma ContinuedHasNoNewlines(p: seq<string>, c: string)
    requires |p| >= 1 && NoNewlines(p)
    ensures NoNewlines(p[..|p| - 1] + Split(p[|p| - 1] + c))
  {
    var init := p[..|p| - 1];
    forall i | 0 <= i < |init|
      ensures '\n' !in init[i]
    {
      assert init[i] == p[i];
    }
    SplitHasNoNewlines(p[|p| - 1] + c);
    NoNewlinesAppend(init, Split(p[|p| - 1] + c));
  }

  /** The pieces `q` are the pieces `p` with the last one continued by
      `c`: the complete pieces stay as they were. */
  predicate Continues(p: seq<string>, c: string, q: seq<string>)
  {
    |p| >= 1 && q == p[..|p| - 1] + Split(p[|p| - 1] + c)
  }

  /** Appending text only extends the last piece and adds pieces after it. */
  lemma SplitAppend(s: string, c: string)
    ensures Continues(Split(s), c, Split(s + c))
  {
    var p := Split(s);
    var q := p[..|p| - 1] + Split(p[|p| - 1] + c);
    SplitHasNoNewlines(s);
    ContinuedHasNoNewlines(p, c);
    JoinSplit(s);
    JoinAfterAppend(p, c);
    SplitJoin(q);
  }

  /** `s.filter(keep)`: the elements `keep` accepts, in order. */
  function Filter<T>(s: seq<T>, keep: T -> bool): seq<T>
  {
    if s == [] then []
    else Filter(s[..|s| - 1], keep) + (if keep(s[|s| - 1]) then [s[|s| - 1]] else [])
  }

  /** The filter distributes over concatenation. */
  lemma {:induction false} FilterAppend<T>(a: seq<T>, b: seq<T>, keep: T -> bool)
    ensures Filter(a + b, keep) == Filter(a, keep) + Filter(b, keep)
    decreases |b|
  {
    if b != [] {
      var b' := b[..|b| - 1];
      var x := b[|b| - 1];
      FilterAppend(a, b', keep);
      DropLastOfAppend(a, b);
      AppendAssoc(Filter(a, keep), Filter(b', keep), if keep(x) then [x] else []);
    } else {
      AppendEmpty(a);
      AppendEmpty(Filter(a, keep));
    }
  }

  /** An element the filter rejects is dropped wherever it stands. */
  lemma FilterDrops<T>(before: seq<T>, x: T, after: seq<T>, keep: T -> bool)
    requires !keep(x)
    ensures Filter(before + [x] + after, keep) == Filter(before + after, keep)
  {
    FilterAppend(before + [x], after, keep);
    FilterAppend(before, [x], keep);
    FilterAppend(before, after, keep);
    assert [x][..0] == [];
    AppendEmpty(Filter(before, keep));
  }

  /** `line.trim()` is truthy. */
  predicate HasContent(line: string)
  {
    !Blank(line)
  }

  /** `lines.filter(line => line.trim())`. */
  function NonBlank(lines: seq<string>): seq<string>
  {
    Filter(lines, HasContent)
  }

  /** The text a parsed line adds: nothing for a line `JSON.parse` rejects,
      for `null` (reading `response` of it throws, and the catch skips the
      line), for a falsy or missing `response`, and for a `response` whose
      conversion to text throws (the catch skips that line too); otherwise
      `String(response)`. */
  function LineText(line: string, parse: string -> Option<Value>): string
  {
    match parse(line)
    case None => ""
    case Some(v) =>
      var r := JsMember(v, "response");
      if JsTruthy(r) && !TextThrows(r.value) then JsText(r.value) else ""
  }

  /** What a line contributes, case by case: a string `response` is shown
      as it is, and every line the handler skips adds nothing. */
  lemma LineTextCases(line: string, parse: string -> Option<Value>)
    ensures parse(line).None? ==> LineText(line, parse) == ""
    ensures parse(line) == Some(Null) ==> LineText(line, parse) == ""
    ensures parse(line).Some? && !JsTruthy(JsMember(parse(line).value, "response")) ==> LineText(line, parse) == ""
    ensures (parse(line).Some? && JsMember(parse(line).value, "response").Some? &&
             JsMember(parse(line).value, "response").value.Str?) ==>
              LineText(line, parse) == JsMember(parse(line).value, "response").value.s
    ensures (parse(line).Some? && JsMember(parse(line).value, "response").Some? &&
             TextThrows(JsMember(parse(line).value, "response").value)) ==>
              LineText(line, parse) == ""
    ensures (parse(line).Some? && JsMember(parse(line).value, "response").Some? &&
             JsMember(parse(line).value, "response").value.Obj? &&
             !TextThrows(JsMember(parse(line).value, "response").value)) ==>
              LineText(line, parse) == "[object Object]"
  {
  }

  /** `{"response":{"toString":1}}` and `{"response":[{"toString":1}]}`:
      appending the response throws, so the line adds nothing, while the
      same object without that member adds `[object Object]`. */
  lemma ShadowedToStringLineIsSkipped(parse: string -> Option<Value>)
    requires parse("{\"response\":{\"toString\":1}}") ==
             Some(Obj([("response", Obj([("toString", Num(1))]))]))
    requires parse("{\"response\":[{\"toString\":1}]}") ==
             Some(Obj([("response", Arr([Obj([("toString", Num(1))])]))]))
    requires parse("{\"response\":{\"valueOf\":1}}") ==
             Some(Obj([("response", Obj([("valueOf", Num(1))]))]))
    ensures LineText("{\"response\":{\"toString\":1}}", parse) == ""
    ensures LineText("{\"response\":[{\"toString\":1}]}", parse) == ""
    ensures LineText("{\"response\":{\"valueOf\":1}}", parse) == "[object Object]"
  {
  }

  /** The loop body on a line that passed the filter. */
  function Parsed(parse: string -> Option<Value>): string -> string
  {
    line => LineText(line, parse)
  }

  /** What any line of a chunk adds, the filter included: a blank line is
      dropped before it is parsed. */
  function Reader(parse: string -> Option<Value>): string -> string
  {
    line => if HasContent(line) then LineText(line, parse) else ""
  }

  /** The concatenation, in order, of the text each item adds. */
  function Texts<T>(items: seq<T>, text: T -> string): string
  {
    if items == [] then ""
    else Texts(items[..|items| - 1], text) + text(items[|items| - 1])
  }

  lemma {:induction false} TextsAppend<T>(a: seq<T>, b: seq<T>, text: T -> string)
    ensures Texts(a + b, text) == Texts(a, text) + Texts(b, text)
    decreases |b|
  {
    if b != [] {
      var b' := b[..|b| - 1];
      TextsAppend(a, b', text);
      DropLastOfAppend(a, b);
    } else {
      AppendEmpty(a);
    }
  }

  /** One more item adds its own text at the end. */
  lemma TextsStep<T>(items: seq<T>, i: nat, text: T -> string)
    requires i < |items|
    ensures Texts(items[..i + 1], text) == Texts(items[..i], text) + text(items[i])
  {
    assert items[..i + 1][..i] == items[..i];
  }

  lemma TextsOfOne<T>(x: T, text: T -> string)
    ensures Texts([x], text) == text(x)
  {
    assert [x][..0] == [];
  }

  /** Filtering the blank lines out and then parsing the rest adds the same
      text as reading every line with the filter folded in. */
  lemma {:induction false} FilterThenParse(lines: seq<string>, parse: string -> Option<Value>)
    ensures Texts(NonBlank(lines), Parsed(parse)) == Texts(lines, Reader(parse))
  {
    if lines != [] {
      var init, last := lines[..|lines| - 1], lines[|lines| - 1];
      FilterThenParse(init, parse);
      var kept: seq<string> := if HasContent(last) then [last] else [];
      assert NonBlank(lines) == NonBlank(init) + kept;
      TextsAppend(NonBlank(init), kept, Parsed(parse));
      if kept != [] {
        TextsOfOne(last, Parsed(parse));
      }
    }
  }

  /** The text one chunk adds, as a reference definition. */
  function ChunkText(chunk: string, text: string -> string): string
  {
    Texts(Split(chunk), text)
  }

  /** The `for (const line of lines)` loop: the text grows by the
      concatenation, in order, of what each line adds. */
  method FoldLines(full: string, lines: seq<string>, parse: string -> Option<Value>) returns (full': string)
    ensures full' == full + Texts(lines, Parsed(parse))
  {
    full' := full;
    var i := 0;
    assert lines[..0] == [];
    while i < |lines|
      invariant 0 <= i <= |lines|
      invariant full' == full + Texts(lines[..i], Parsed(parse))
    {
      TextsStep(lines, i, Parsed(parse));
      full' := full' + LineText(lines[i], parse);
      i := i + 1;
    }
    assert lines[..i] == lines;
  }

  /** One chunk: split at newlines, drop the blank lines, fold the rest. */
  method FoldChunk(full: string, chunk: string, parse: string -> Option<Value>) returns (full': string)
    ensures full' == full + ChunkText(chunk, Reader(parse))
  {
    var lines := NonBlank(Split(chunk));
    full' := FoldLines(full, lines, parse);
    FilterThenParse(Split(chunk), parse);
  }

  /** The text the source accumulates from a whole stream: every chunk is
      folded on its own. */
  function AsWrittenText(chunks: seq<string>, text: string -> string): string
  {
    if chunks == [] then ""
    else AsWrittenText(chunks[..|chunks| - 1], text) + ChunkText(chunks[|chunks| - 1], text)
  }

  /** The `while (true)` read loop. */
  method ReadStream(chunks: seq<string>, parse: string -> Option<Value>) returns (full: string)
    ensures full == AsWrittenText(chunks, Reader(parse))
  {
    full := "";
    var i := 0;
    while i < |chunks|
      invariant 0 <= i <= |chunks|
      invariant full == AsWrittenText(chunks[..i], Reader(parse))
    {
      assert chunks[..i + 1][..i] == chunks[..i];
      full := FoldChunk(full, chunks[i], parse);
      i := i + 1;
    }
    assert chunks[..i] == chunks;
  }

  /** A line that adds nothing leaves the text of the lines around it as
      it was. */
  lemma SilentLineIsSkipped(before: seq<string>, line: string, after: seq<string>, text: string -> string)
    requires text(line) == ""
    ensures Texts(before + [line] + after, text) == Texts(before, text) + Texts(after, text)
  {
    TextsOfOne(line, text);
    TextsAppend(before, [line], text);
    TextsAppend(before + [line], after, text);
  }

  /** A line `JSON.parse` rejects adds nothing and does not stop the lines
      after it. */
  lemma UnparsableLineIsSkipped(before: seq<string>, line: string, after: seq<string>, parse: string -> Option<Value>)
    requires parse(line).None?
    ensures Texts(before + [line] + after, Reader(parse)) == Texts(before, Reader(parse)) + Texts(after, Reader(parse))
  {
    LineTextCases(line, parse);
    SilentLineIsSkipped(before, line, after, Reader(parse));
  }

  /** Blank lines never reach `JSON.parse`: the filter drops them wherever
      they stand, and they add nothing. */
  lemma BlankLineIsSkipped(before: seq<string>, line: string, after: seq<string>, parse: string -> Option<Value>)
    requires Blank(line)
    ensures NonBlank(before + [line] + after) == NonBlank(before + after)
    ensures Texts(before + [line] + after, Reader(parse)) == Texts(before, Reader(parse)) + Texts(after, Reader(parse))
  {
    FilterDrops(before, line, after, HasContent);
    SilentLineIsSkipped(before, line, after, Reader(parse));
  }

  /** The body of the reply: its status, the chunks read before the stream
      ended, and the message of the error the reader threw, if it threw. */
  datatype Fetched =
    | Rejected(message: string)
    | Response(status: int, chunks: seq<string>, readFailure: Option<string>)

  /** `response.ok`: a 2xx status. */
  predicate Ok(status: int)
  {
    200 <= status <= 299
  }

  /** The displayed text and the text accumulated when `speakToLlama`
      returns. */
  datatype Speech = Speech(shown: string, full: string)

  /** `speakToLlama` after the request: a rejected fetch or a failed read
      shows `Error: ` and the error's message; a non-2xx status throws before
      reading and shows the status; otherwise the display ends up holding the
      accumulated text. */
  function SpeakToLlama(fetched: Fetched, parse: string -> Option<Value>): (s: Speech)
    ensures fetched.Rejected? ==> s == Speech("Error: " + fetched.message, "")
    ensures fetched.Response? && !Ok(fetched.status) ==>
              s == Speech("Error: HTTP error! status: " + IntText(fetched.status), "")
    ensures fetched.Response? && Ok(fetched.status) ==> s.full == AsWrittenText(fetched.chunks, Reader(parse))
    ensures fetched.Response? && Ok(fetched.status) && fetched.readFailure.None? ==> s.shown == s.full
    ensures fetched.Response? && Ok(fetched.status) && fetched.readFailure.Some? ==>
              s.shown == "Error: " + fetched.readFailure.value
  {
    match fetched
    case Rejected(message) => Speech("Error: " + message, "")
    case Response(status, chunks, readFailure) =>
      if !Ok(status) then Speech("Error: HTTP error! status: " + IntText(status), "")
      else
        var full := AsWrittenText(chunks, Reader(parse));
        match readFailure
        case Some(message) => Speech("Error: " + message, full)
        case None => Speech(full, full)
  }

  /** The concatenation of the chunks: the text the server sent. */
  function Concat(chunks: seq<string>): string
  {
    if chunks == [] then "" else Concat(chunks[..|chunks| - 1]) + chunks[|chunks| - 1]
  }

  /** The text the whole reply should produce: every line of the full body,
      however the body was cut into chunks. */
  function WholeText(body: string, text: string -> string): string
  {
    ChunkText(body, text)
  }

  /** The corrected fold's state: the text so far and the unfinished line
      held back for the next chunk. */
  datatype Reading = Reading(full: string, buffer: string)

  /** The state that has folded every complete piece and holds the last
      one back. */
  function Complete(parts: seq<string>, text: string -> string): Reading
    requires |parts| >= 1
  {
    Reading(Texts(parts[..|parts| - 1], text), parts[|parts| - 1])
  }

  /** Feeding one chunk: the buffer is continued by the chunk, every line
      that is now complete is folded, and the new unfinished line is held
      back. */
  function Feed(r: Reading, chunk: string, text: string -> string): Reading
  {
    var parts := Split(r.buffer + chunk);
    Reading(r.full + Texts(parts[..|parts| - 1], text), parts[|parts| - 1])
  }

  /** The corrected fold over the chunks read so far. */
  function BufferedRun(chunks: seq<string>, text: string -> string): Reading
  {
    if chunks == [] then Reading("", "")
    else Feed(BufferedRun(chunks[..|chunks| - 1], text), chunks[|chunks| - 1], text)
  }

  /** At the end of the stream the buffer holds the last line. */
  function BufferedText(chunks: seq<string>, text: string -> string): string
  {
    var r := BufferedRun(chunks, text);
    r.full + text(r.buffer)
  }

  /** The bookkeeping of one feed: the complete pieces `a` read before,
      the pieces `parts` of the continued buffer, and the pieces `q` of the
      whole. */
  lemma FeedStep<T>(a: seq<T>, parts: seq<T>, q: seq<T>, text: T -> string)
    requires |parts| >= 1 && q == a + parts
    ensures |q| >= 1
    ensures Texts(a, text) + Texts(parts[..|parts| - 1], text) == Texts(q[..|q| - 1], text)
    ensures q[|q| - 1] == parts[|parts| - 1]
  {
    DropLastOfAppend(a, parts);
    TextsAppend(a, parts[..|parts| - 1], text);
  }

  /** Feeding a chunk to the state that holds back the last of the pieces
      `p` gives the state of the pieces `q` that continue them. */
  lemma FeedExtends(p: seq<string>, c: string, q: seq<string>, text: string -> string)
    requires Continues(p, c, q)
    ensures |q| >= 1
    ensures Feed(Complete(p, text), c, text) == Complete(q, text)
  {
    FeedStep(p[..|p| - 1], Split(p[|p| - 1] + c), q, text);
  }

  /** Feeding a chunk to the state that has read `body` gives the state that
      has read `body + chunk`. */
  lemma FeedCompletes(body: string, c: string, text: string -> string)
    ensures Feed(Complete(Split(body), text), c, text) == Complete(Split(body + c), text)
  {
    SplitAppend(body, c);
    FeedExtends(Split(body), c, Split(body + c), text);
  }

  /** The buffered run has folded every complete line of the text read so
      far and holds the unfinished one. */
  lemma {:induction false} BufferedRunInvariant(chunks: seq<string>, text: string -> string)
    ensures BufferedRun(chunks, text) == Complete(Split(Concat(chunks)), text)
  {
    if chunks == [] {
      assert [""][..0] == [];
    } else {
      var init, c := chunks[..|chunks| - 1], chunks[|chunks| - 1];
      BufferedRunInvariant(init, text);
      FeedCompletes(Concat(init), c, text);
    }
  }

  /** The corrected fold produces the text of the whole body, so where the
      chunk boundaries fall makes no difference. */
  lemma BufferedTextIsWholeText(chunks: seq<string>, text: string -> string)
    ensures BufferedText(chunks, text) == WholeText(Concat(chunks), text)
  {
    BufferedRunInvariant(chunks, text);
    var p := Split(Concat(chunks));
    LastSplit(p);
    TextsAppend(p[..|p| - 1], [p[|p| - 1]], text);
    TextsOfOne(p[|p| - 1], text);
  }

  lemma BufferedTextIgnoresBoundaries(a: seq<string>, b: seq<string>, text: string -> string)
    requires Concat(a) == Concat(b)
    ensures BufferedText(a, text) == BufferedText(b, text)
  {
    BufferedTextIsWholeText(a, text);
    BufferedTextIsWholeText(b, text);
  }

  /** `speakToLlama` with the unfinished line held back between reads: the
      error cases are as written; a 2xx stream read to its end shows the
      text of the whole body; a failed read keeps the complete lines read
      before it. */
  function SpeakToLlamaBuffered(fetched: Fetched, parse: string -> Option<Value>): (s: Speech)
    ensures fetched.Rejected? ==> s == Speech("Error: " + fetched.message, "")
    ensures fetched.Response? && !Ok(fetched.status) ==>
              s == Speech("Error: HTTP error! status: " + IntText(fetched.status), "")
    ensures fetched.Response? && Ok(fetched.status) && fetched.readFailure.None? ==>
              s.shown == s.full == WholeText(Concat(fetched.chunks), Reader(parse))
    ensures fetched.Response? && Ok(fetched.status) && fetched.readFailure.Some? ==>
              s.shown == "Error: " + fetched.readFailure.value &&
              s.full == BufferedRun(fetched.chunks, Reader(parse)).full
  {
    match fetched
    case Rejected(message) => Speech("Error: " + message, "")
    case Response(status, chunks, readFailure) =>
      if !Ok(status) then Speech("Error: HTTP error! status: " + IntText(status), "")
      else
        match readFailure
        case Some(message) => Speech("Error: " + message, BufferedRun(chunks, Reader(parse)).full)
        case None =>
          BufferedTextIsWholeText(chunks, Reader(parse));
          var full := BufferedText(chunks, Reader(parse));
          Speech(full, full)
  }

  /** When every read ends on a line boundary, the corrected handler and the
      handler as written show the same thing. */
  lemma BufferedSpeechAgreesWhenAligned(fetched: Fetched, parse: string -> Option<Value>)
    requires fetched.Response? && LineAligned(fetched.chunks)
    ensures SpeakToLlamaBuffered(fetched, parse) == SpeakToLlama(fetched, parse)
  {
    ReaderSkipsEmpty(parse);
    AlignedChunksAgree(fetched.chunks, Reader(parse));
  }

  /** A chunk that ends at a line boundary (or is empty). */
  predicate LineAligned(chunks: seq<string>)
  {
    forall i :: 0 <= i < |chunks| ==> chunks[i] == "" || chunks[i][|chunks[i]| - 1] == '\n'
  }

  /** A chunk that ends with a newline leaves nothing unfinished. */
  lemma LastPieceAfterNewline(c: string)
    requires c == "" || c[|c| - 1] == '\n'
    ensures var p := Split(c); p[|p| - 1] == ""
  {
    if c != "" {
      var c' := c[..|c| - 1];
      assert c == c' + "\n";
      SplitAppend(c', "\n");
      var p := Split(c');
      var last := p[|p| - 1];
      SplitHasNoNewlines(c');
      SplitJoin([last, ""]);
      assert JoinLines([last, ""]) == last + "\n";
    }
  }

  /** A chunk that ends at a line boundary adds the text of its complete
      lines only, given that an empty line adds nothing. */
  lemma AlignedChunkText(c: string, text: string -> string)
    requires c == "" || c[|c| - 1] == '\n'
    requires text("") == ""
    ensures Feed(Reading("", ""), c, text) == Reading(ChunkText(c, text), "")
  {
    LastPieceAfterNewline(c);
    var parts := Split(c);
    assert "" + c == c;
    LastSplit(parts);
    TextsAppend(parts[..|parts| - 1], [""], text);
    TextsOfOne("", text);
  }

  /** Feeding a chunk with nothing held back adds to the text what the
      chunk adds on its own. */
  lemma FeedWithEmptyBuffer(full: string, c: string, text: string -> string)
    ensures Feed(Reading(full, ""), c, text).full == full + Feed(Reading("", ""), c, text).full
    ensures Feed(Reading(full, ""), c, text).buffer == Feed(Reading("", ""), c, text).buffer
  {
    assert "" + c == c;
  }

  lemma LineAlignedFront(chunks: seq<string>)
    requires LineAligned(chunks) && chunks != []
    ensures LineAligned(chunks[..|chunks| - 1])
    ensures var c := chunks[|chunks| - 1]; c == "" || c[|c| - 1] == '\n'
  {
    var init := chunks[..|chunks| - 1];
    forall i | 0 <= i < |init|
      ensures init[i] == "" || init[i][|init[i]| - 1] == '\n'
    {
      assert init[i] == chunks[i];
    }
  }

  /** When every chunk ends at a line boundary the source's per-chunk fold
      and the buffered fold agree: the loss needs a line cut in two. The
      line reader must add nothing for an empty line, as `Reader` does. */
  lemma {:induction false} AlignedChunksAgree(chunks: seq<string>, text: string -> string)
    requires LineAligned(chunks)
    requires text("") == ""
    ensures BufferedRun(chunks, text) == Reading(AsWrittenText(chunks, text), "")
    ensures BufferedText(chunks, text) == AsWrittenText(chunks, text)
  {
    if chunks != [] {
      var init, c := chunks[..|chunks| - 1], chunks[|chunks| - 1];
      LineAlignedFront(chunks);
      AlignedChunksAgree(init, text);
      AlignedChunkText(c, text);
      FeedWithEmptyBuffer(AsWrittenText(init, text), c, text);
      assert BufferedRun(chunks, text) == Feed(BufferedRun(init, text), c, text);
    }
  }

  /** An empty line adds nothing. */
  lemma ReaderSkipsEmpty(parse: string -> Option<Value>)
    ensures Reader(parse)("") == ""
  {
  }

  /** A chunk holding one line adds that line's text. */
  lemma OneLineChunk(line: string, text: string -> string)
    requires '\n' !in line
    ensures ChunkText(line, text) == text(line)
  {
    assert JoinLines([line]) == line;
    SplitJoin([line]);
    TextsOfOne(line, text);
  }

  /** So does the same line followed by a newline, given that an empty line
      adds nothing. */
  lemma OneTerminatedLineChunk(line: string, text: string -> string)
    requires '\n' !in line && text("") == ""
    ensures ChunkText(line + "\n", text) == text(line)
  {
    assert JoinLines([line, ""]) == line + "\n" by {
      assert JoinLines([line, ""][1..]) == "";
    }
    SplitJoin([line, ""]);
    assert [line, ""] == [line] + [""];
    TextsAppend([line], [""], text);
    TextsOfOne(line, text);
    TextsOfOne("", text);
  }

  /** The two pieces of a stream read as one chunk each. */
  lemma TwoChunks(a: string, b: string, text: string -> string)
    ensures AsWrittenText([a, b], text) == ChunkText(a, text) + ChunkText(b, text)
    ensures Concat([a, b]) == a + b
  {
    assert [a, b][..1] == [a];
    assert [a][..0] == [];
    assert AsWrittenText([a], text) == AsWrittenText([], text) + ChunkText(a, text);
    assert Concat([a]) == Concat([]) + a;
  }

  /** The three lines of the example: none holds a newline or is blank, and
      the two halves make up the whole object. */
  lemma SplitObjectLines(head: string, close: string, whole: string)
    requires head == "{\"response\":\"hi\"" && close == "}" && whole == "{\"response\":\"hi\"}"
    ensures '\n' !in head && '\n' !in close && '\n' !in whole
    ensures !Blank(head) && !Blank(close) && !Blank(whole)
    ensures head + close == whole
    ensures close + "\n" == "}\n"
  {
    assert !IsJsSpace(head[0]) && !IsJsSpace(close[0]) && !IsJsSpace(whole[0]);
    assert |close + "\n"| == 2 && (close + "\n")[0] == '}' && (close + "\n")[1] == '\n';
  }

  /** A line cut in two across chunks, read by the source: each half is
      parsed on its own. */
  lemma CutLineAsWritten(head: string, close: string, text: string -> string)
    requires '\n' !in head && '\n' !in close && text("") == ""
    ensures AsWrittenText([head, close + "\n"], text) == text(head) + text(close)
  {
    TwoChunks(head, close + "\n", text);
    OneLineChunk(head, text);
    OneTerminatedLineChunk(close, text);
  }

  /** The same line read by the buffered fold: it is read whole. */
  lemma CutLineBuffered(head: string, close: string, text: string -> string)
    requires '\n' !in head + close && text("") == ""
    ensures BufferedText([head, close + "\n"], text) == text(head + close)
  {
    TwoChunks(head, close + "\n", text);
    BufferedTextIsWholeText([head, close + "\n"], text);
    assert head + (close + "\n") == (head + close) + "\n";
    OneTerminatedLineChunk(head + close, text);
  }

  /** A line `JSON.parse` rejects adds nothing. */
  lemma UnparsedLineIsSilent(line: string, parse: string -> Option<Value>)
    requires parse(line).None?
    ensures Reader(parse)(line) == ""
  {
    LineTextCases(line, parse);
  }

  /** A non-blank line holding just a non-empty string `response` adds that
      string. */
  lemma ResponseLineAdds(line: string, parse: string -> Option<Value>, s: string)
    requires !Blank(line) && s != ""
    requires parse(line) == Some(Obj([("response", Str(s))]))
    ensures Reader(parse)(line) == s
  {
    assert JsMember(Obj([("response", Str(s))]), "response") == Some(Str(s));
    LineTextCases(line, parse);
  }

  /** What each of the example's lines adds when read on its own. */
  lemma SplitObjectTexts(parse: string -> Option<Value>)
    requires parse("{\"response\":\"hi\"").None?
    requires parse("}").None?
    requires parse("{\"response\":\"hi\"}") == Some(Obj([("response", Str("hi"))]))
    ensures Reader(parse)("{\"response\":\"hi\"") == ""
    ensures Reader(parse)("}") == ""
    ensures Reader(parse)("{\"response\":\"hi\"}") == "hi"
  {
    UnparsedLineIsSilent("{\"response\":\"hi\"", parse);
    UnparsedLineIsSilent("}", parse);
    SplitObjectLines("{\"response\":\"hi\"", "}", "{\"response\":\"hi\"}");
    ResponseLineAdds("{\"response\":\"hi\"}", parse, "hi");
  }

  /** The source as written loses a JSON object that arrives cut across two
      chunks: both halves fail to parse on their own. The buffered fold
      reads it whole. */
  lemma SplitObjectIsLost(parse: string -> Option<Value>)
    requires parse("{\"response\":\"hi\"").None?
    requires parse("}").None?
    requires parse("{\"response\":\"hi\"}") == Some(Obj([("response", Str("hi"))]))
    ensures AsWrittenText(["{\"response\":\"hi\"", "}\n"], Reader(parse)) == ""
    ensures BufferedText(["{\"response\":\"hi\"", "}\n"], Reader(parse)) == "hi"
  {
    var head: string := "{\"response\":\"hi\"";
    var close: string := "}";
    var whole: string := "{\"response\":\"hi\"}";
    SplitObjectLines(head, close, whole);
    SplitObjectTexts(parse);
    ReaderSkipsEmpty(parse);
    CutLineAsWritten(head, close, Reader(parse));
    CutLineBuffered(head, close, Reader(parse));
  }
}
