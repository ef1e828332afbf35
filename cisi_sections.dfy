/**
 * The CISI readers of the query-expansion tests (`read_cisi_collection` and
 * `read_queries`, two copies of one loop): every line of a record except a
 * `.W` line is kept, stripped, and the record is those pieces joined by
 * single spaces.  Unlike the other CISI parsers these judge each line before
 * stripping it.
 */
module CisiSections {
  import opened Outcomes
  import opened Dicts
  import Text

  /** What a raw line of the file is. */
  datatype SectionLine =
    | Header(id: Option<string>)  // starts with `.I `: the second piece of `line.strip().split(" ")`, `None` where there is none
    | Skip                        // starts with `.W`
    | Piece(text: string)         // anything else, stripped: other markers and blank lines included

  function Kind(line: string): SectionLine {
    if Text.StartsWith(line, ".I ") then
      var parts := Text.SplitOn(Text.Strip(line), ' ');
      Header(if |parts| >= 2 then Some(parts[1]) else None)
    else if Text.StartsWith(line, ".W") then Skip
    else Piece(Text.Strip(line))
  }

  function Kinds(lines: seq<string>): (ks: seq<SectionLine>)
    ensures |ks| == |lines| && forall i :: 0 <= i < |lines| ==> ks[i] == Kind(lines[i])
  {
    seq(|lines|, i requires 0 <= i < |lines| => Kind(lines[i]))
  }

  /** The reader stops only with the `IndexError` of a `.I` line that has no second piece. */
  datatype ParseError = MissingId

  /** The loop's variables: the result dict, `current_content` and `current_id`. */
  datatype State = State(docs: Dict<string, string>, content: seq<string>, currentId: Option<string>)

  const Initial := State([], [], None)

  /** `if current_id is not None: documents[current_id] = " ".join(current_content)`. */
  function Flush(st: State): Dict<string, string> {
    match st.currentId
    case Some(id) => Put(st.docs, id, Text.Join(" ", st.content))
    case None => st.docs
  }

  /** One pass of the loop body. */
  function Step(st: State, k: SectionLine): Result<State, ParseError> {
    match k
    case Header(id) => if id.None? then Err(MissingId) else Ok(State(Flush(st), [], id))
    case Skip => Ok(st)
    case Piece(text) => Ok(st.(content := st.content + [text]))
  }

  /** The state after the lines `ks`, or the error that stopped the loop. */
  function Run(ks: seq<SectionLine>): Result<State, ParseError> {
    if ks == [] then Ok(Initial)
    else
      match Run(ks[..|ks| - 1])
      case Err(e) => Err(e)
      case Ok(st) => Step(st, ks[|ks| - 1])
  }

  /** The records after the final flush. */
  function DocsOf(ks: seq<SectionLine>): Result<Dict<string, string>, ParseError> {
    match Run(ks)
    case Err(e) => Err(e)
    case Ok(st) => Ok(Flush(st))
  }

  /** What either reader returns for the lines of a file. */
  function ReadSections(lines: seq<string>): Result<Dict<string, string>, ParseError> {
    DocsOf(Kinds(lines))
  }

  lemma {:induction false} RunErrSticky(ks: seq<SectionLine>, n: nat)
    requires n <= |ks| && Run(ks[..n]).Err?
    ensures Run(ks) == Run(ks[..n])
  {
    if n < |ks| {
      var init := ks[..|ks| - 1];
      assert init[..n] == ks[..n];
      RunErrSticky(init, n);
    } else {
      assert ks[..n] == ks;
    }
  }

  /** One pass of the loop body over `line`: `Step` on the loop's variables. */
  method ProcessLine(docs: Dict<string, string>, content: seq<string>, currentId: Option<string>, line: string)
    returns (err: Option<ParseError>, docs': Dict<string, string>, content': seq<string>, currentId': Option<string>)
    ensures var next := Step(State(docs, content, currentId), Kind(line));
      match err
      case None => next == Ok(State(docs', content', currentId'))
      case Some(e) => next == Err(e)
  {
    err, docs', content', currentId' := None, docs, content, currentId;
    if Text.StartsWith(line, ".I ") {
      if currentId'.Some? {
        docs' := Put(docs', currentId'.value, Text.Join(" ", content'));
      }
      var parts := Text.SplitOn(Text.Strip(line), ' ');
      if |parts| < 2 {
        err := Some(MissingId);
        return;
      }
      currentId' := Some(parts[1]);
      content' := [];
    } else if Text.StartsWith(line, ".W") {
      return;
    } else {
      content' := content' + [Text.Strip(line)];
    }
  }

  /** The loop of `read_cisi_collection`, and of `read_queries`, over the lines of the file. */
  method ReadCisiSections(lines: seq<string>) returns (r: Result<Dict<string, string>, ParseError>)
    ensures r == ReadSections(lines)
  {
    ghost var ks := Kinds(lines);
    var docs: Dict<string, string> := [];
    var currentId: Option<string> := None;
    var content: seq<string> := [];
    for i := 0 to |lines|
      invariant Run(ks[..i]) == Ok(State(docs, content, currentId))
    {
      ghost var prefix := ks[..i + 1];
      assert prefix[..|prefix| - 1] == ks[..i] && prefix[|prefix| - 1] == Kind(lines[i]);
      var err;
      err, docs, content, currentId := ProcessLine(docs, content, currentId, lines[i]);
      if err.Some? {
        RunErrSticky(ks, i + 1);
        return Err(err.value);
      }
    }
    assert ks[..|lines|] == ks;
    if currentId.Some? {
      docs := Put(docs, currentId.value, Text.Join(" ", content));
    }
    r := Ok(docs);
  }

  predicate NoHeaders(ks: seq<SectionLine>) {
    forall i :: 0 <= i < |ks| ==> !ks[i].Header?
  }

  /** The texts of the kept lines of `ks`, in order. */
  function Pieces(ks: seq<SectionLine>): (ps: seq<string>)
    ensures |ps| <= |ks|
  {
    if ks == [] then []
    else
      var k := ks[|ks| - 1];
      Pieces(ks[..|ks| - 1]) + if k.Piece? then [k.text] else []
  }

  /**
   * A `.I` line with id `id` followed by lines `body` with no `.I` line: the
   * records before it have been stored, and the open record is `id` with the
   * pieces `body` keeps.
   */
  lemma {:induction false} RunSection(a: seq<SectionLine>, id: string, body: seq<SectionLine>)
    requires Run(a).Ok? && NoHeaders(body)
    ensures Run(a + [Header(Some(id))] + body) == Ok(State(Flush(Run(a).value), Pieces(body), Some(id)))
  {
    var ks := a + [Header(Some(id))] + body;
    if body == [] {
      assert ks[..|ks| - 1] == a;
    } else {
      var init := body[..|body| - 1];
      assert ks[..|ks| - 1] == a + [Header(Some(id))] + init;
      assert NoHeaders(init);
      RunSection(a, id, init);
      var k := body[|body| - 1];
      var st := State(Flush(Run(a).value), Pieces(init), Some(id));
      assert Run(ks) == Step(st, k);
      match k
      case Skip =>
        assert Pieces(body) == Pieces(init) + [] == Pieces(init);
      case Piece(text) =>
        assert Pieces(body) == Pieces(init) + [text];
    }
  }

  /**
   * The record of each `.I` line is stored under its id: the pieces of the
   * lines up to the next `.I` line (or the end) joined by single spaces,
   * replacing any earlier record with that id.
   */
  lemma DocsOfSection(a: seq<SectionLine>, id: string, body: seq<SectionLine>)
    requires DocsOf(a).Ok? && NoHeaders(body)
    ensures DocsOf(a + [Header(Some(id))] + body) == Ok(Put(DocsOf(a).value, id, Text.Join(" ", Pieces(body))))
  {
    RunSection(a, id, body);
  }

  lemma {:induction false} PreambleRun(ks: seq<SectionLine>)
    requires NoHeaders(ks)
    ensures Run(ks).Ok? && Run(ks).value.docs == [] && Run(ks).value.currentId == None
  {
    if ks != [] {
      var init := ks[..|ks| - 1];
      assert NoHeaders(init);
      PreambleRun(init);
    }
  }

  /** Lines before the first `.I` line are discarded: without one, nothing is stored. */
  lemma DocsOfPreamble(ks: seq<SectionLine>)
    requires NoHeaders(ks)
    ensures DocsOf(ks) == Ok([])
  {
    PreambleRun(ks);
  }

  /** The reader fails exactly when some `.I` line has no second piece. */
  lemma {:induction false} DocsOfOk(ks: seq<SectionLine>)
    ensures DocsOf(ks).Ok? <==> Header(None) !in ks
  {
    if ks != [] {
      var init := ks[..|ks| - 1];
      assert ks == init + [ks[|ks| - 1]];
      DocsOfOk(init);
    }
  }

  /** The stored ids are exactly the ids of the `.I` lines. */
  lemma {:induction false} DocsOfIds(ks: seq<SectionLine>, id: string)
    requires DocsOf(ks).Ok?
    ensures Get(DocsOf(ks).value, id).Some? <==> Header(Some(id)) in ks
  {
    if ks != [] {
      var init := ks[..|ks| - 1];
      var k := ks[|ks| - 1];
      assert ks == init + [k];
      assert Run(init).Ok?;
      DocsOfIds(init, id);
      var st := Run(init).value;
      var next := Run(ks).value;
      if st.currentId.Some? {
        GetPut(st.docs, st.currentId.value, Text.Join(" ", st.content), id);
      }
      if next.currentId.Some? {
        GetPut(next.docs, next.currentId.value, Text.Join(" ", next.content), id);
      }
    }
  }

  lemma {:induction false} RunDistinct(ks: seq<SectionLine>)
    requires Run(ks).Ok?
    ensures DistinctKeys(Run(ks).value.docs)
  {
    if ks != [] {
      var init := ks[..|ks| - 1];
      assert Run(init).Ok?;
      RunDistinct(init);
      var st := Run(init).value;
      if st.currentId.Some? {
        PutDistinct(st.docs, st.currentId.value, Text.Join(" ", st.content));
      }
    }
  }

  /** No id is stored twice. */
  lemma DocsOfDistinct(ks: seq<SectionLine>)
    requires DocsOf(ks).Ok?
    ensures DistinctKeys(DocsOf(ks).value)
  {
    RunDistinct(ks);
    var st := Run(ks).value;
    if st.currentId.Some? {
      PutDistinct(st.docs, st.currentId.value, Text.Join(" ", st.content));
    }
  }

  /** `s.split(sep)` of a string without `sep` is the string itself. */
  lemma {:induction false} SplitOnWithout(s: string, sep: char)
    requires sep !in s
    ensures Text.SplitOn(s, sep) == [s]
  {
    if s != [] {
      SplitOnWithout(s[1..], sep);
      assert [s[0]] + s[1..] == s;
    }
  }

  /** Stripping a line that ends in a newline. */
  lemma StripNewline(m: string)
    requires m != [] && !Text.IsSpace(m[0]) && !Text.IsSpace(m[|m| - 1])
    ensures Text.Strip(m + "\n") == m
  {
    var line := m + "\n";
    assert line[..|line| - 1] == m;
    assert Text.StripLeft(line) == line;
  }

  /**
   * A `.I` line as the file holds it, number and newline, starts a record
   * under that number exactly as written (no normalisation).
   */
  lemma HeaderLine(id: string)
    requires id != [] && forall i :: 0 <= i < |id| ==> !Text.IsSpace(id[i])
    ensures Kind(".I " + id + "\n") == Header(Some(id))
  {
    StripNewline(".I " + id);
    SplitHeader(id);
  }

  /** `".I n".split(" ") == [".I", "n"]` for a number without spaces. */
  lemma SplitHeader(id: string)
    requires forall i :: 0 <= i < |id| ==> !Text.IsSpace(id[i])
    ensures Text.SplitOn(".I " + id, ' ') == [".I", id]
  {
    assert ' ' !in id by {
      forall i | 0 <= i < |id| ensures id[i] != ' ' {
        assert !Text.IsSpace(id[i]);
      }
    }
    SplitTwoChars('.', 'I', id, ' ');
    ConsThree('.', 'I', ' ', id);
  }

  lemma ConsThree(a: char, b: char, c: char, t: string)
    ensures [a, b, c] + t == [a] + ([b] + ([c] + t))
  {
    var l, r := [a, b, c] + t, [a] + ([b] + ([c] + t));
    assert |l| == |r|;
    forall i | 0 <= i < |l| ensures l[i] == r[i] {
      if i >= 3 {
        assert l[i] == t[i - 3] && r[i] == t[i - 3];
      }
    }
  }

  /** `"ab" + sep + t` splits into `"ab"` and `t` when neither `a`, `b` nor `t` holds the separator. */
  lemma SplitTwoChars(a: char, b: char, t: string, sep: char)
    requires a != sep && b != sep && sep !in t
    ensures Text.SplitOn([a] + ([b] + ([sep] + t)), sep) == [[a, b], t]
  {
    SplitLeadingSep(t, sep);
    SplitPrefixChar(b, [sep] + t, sep, "", t);
    assert [b] + "" == [b];
    SplitPrefixChar(a, [b] + ([sep] + t), sep, [b], t);
    assert [a] + [b] == [a, b];
  }

  /** A separator followed by text without one splits into an empty piece and the text. */
  lemma SplitLeadingSep(t: string, sep: char)
    requires sep !in t
    ensures Text.SplitOn([sep] + t, sep) == ["", t]
  {
    SplitOnWithout(t, sep);
    assert ([sep] + t)[1..] == t;
  }

  /** A character other than the separator joins the first of two pieces. */
  lemma SplitPrefixChar(c: char, t: string, sep: char, first: string, second: string)
    requires c != sep && Text.SplitOn(t, sep) == [first, second]
    ensures Text.SplitOn([c] + t, sep) == [[c] + first, second]
  {
    assert ([c] + t)[1..] == t;
  }

  /** Marker lines other than `.W` are kept, stripped. */
  lemma KeptMarker(m: char)
    requires m != 'W' && m != ' ' && !Text.IsSpace(m)
    ensures Kind(['.', m, '\n']) == Piece(['.', m])
  {
    StripNewline(['.', m]);
    assert ['.', m] + "\n" == ['.', m, '\n'];
  }

  /** Blank lines are kept as empty pieces, which joining turns into extra spaces. */
  lemma KeptBlankLine()
    ensures Kind("\n") == Piece("")
  {
  }
}
