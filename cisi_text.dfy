/**
 * The single-string CISI document parser (`app/data/parsing/parser_docs.py`):
 * each document is the text of its title and abstract, every captured line
 * preceded by a space; the author, bibliography and cross-reference parts are
 * skipped.
 */
module CisiText {
  import opened Outcomes
  import opened Dicts
  import opened CisiLines
  import Text

  /** The script stops only where `int()` rejects the number of a `.I` line. */
  datatype ParseError = InvalidId

  /** Whether a marker turns capture off (`neglect = True`). */
  predicate Neglects(m: Marker) {
    m == X || m == A || m == B
  }

  /** The loop's variables: `docs`, `current_doc`, `neglect` and `current_id`. */
  datatype State = State(docs: Dict<string, string>, current: string, neglect: bool, currentId: Option<string>)

  const Initial := State([], "", false, None)

  /** `if current_id: docs[current_id] = current_doc`. */
  function Flush(st: State): Dict<string, string> {
    match st.currentId
    case Some(id) => Put(st.docs, id, st.current)
    case None => st.docs
  }

  /** One pass of the loop body. */
  function Step(st: State, k: CisiLine): Result<State, ParseError> {
    match k
    case Blank => Ok(st)
    case Start(id) => if id.None? then Err(InvalidId) else Ok(State(Flush(st), "", false, id))
    case Tag(m) => Ok(st.(neglect := Neglects(m)))
    case Content(text) => if st.neglect then Ok(st) else Ok(st.(current := st.current + " " + text))
  }

  /** The state after the lines `ks`, or the error that stopped the loop. */
  function Run(ks: seq<CisiLine>): Result<State, ParseError> {
    if ks == [] then Ok(Initial)
    else
      match Run(ks[..|ks| - 1])
      case Err(e) => Err(e)
      case Ok(st) => Step(st, ks[|ks| - 1])
  }

  /** The documents after the final flush. */
  function DocsOf(ks: seq<CisiLine>): Result<Dict<string, string>, ParseError> {
    match Run(ks)
    case Err(e) => Err(e)
    case Ok(st) => Ok(Flush(st))
  }

  /** What the script writes out for the lines of a CISI file. */
  function ParseDocs(lines: seq<string>): Result<Dict<string, string>, ParseError> {
    DocsOf(Classified(lines))
  }

  lemma {:induction false} RunErrSticky(ks: seq<CisiLine>, n: nat)
    requires n <= |ks| && Run(ks[..n]).Err?
    ensures Run(ks) == Run(ks[..n])
  {
    if n < |ks| {
      var init := ks[..|ks| - 1];
      assert init[..n] == ks[..n];
      RunErrSticky(init, n);
    } else {
      assert ks[..n] == ks;
    }
  }

  /**
   * The loop body on one line, over the loop's variables; `err` is the
   * exception it raises, if any.
   */
  method ProcessLine(docs: Dict<string, string>, current: string, neglect: bool, currentId: Option<string>, rawLine: string)
    returns (err: Option<ParseError>, docs': Dict<string, string>, current': string, neglect': bool, currentId': Option<string>)
    ensures var next := Step(State(docs, current, neglect, currentId), Classify(rawLine));
      match err
      case None => next == Ok(State(docs', current', neglect', currentId'))
      case Some(e) => next == Err(e)
  {
    err, docs', current', neglect', currentId' := None, docs, current, neglect, currentId;
    var line := Text.Strip(rawLine);
    if line == [] {
      return;
    }
    if Text.StartsWith(line, ".I ") {
      neglect' := false;
      if currentId'.Some? {
        docs' := Put(docs', currentId'.value, current');
      }
      var id := Text.NormalizeId(line[3..]);
      if id.None? {
        err := Some(InvalidId);
        return;
      }
      currentId' := id;
      current' := "";
    } else if line == ".T" || line == ".W" {
      neglect' := false;
    } else if line == ".X" || line == ".A" || line == ".B" {
      neglect' := true;
    } else if !neglect' {
      current' := current' + " " + Text.Strip(line);
    }
  }

  /** The loop of the script, over the lines of the file. */
  method ParseCisiDocs(lines: seq<string>) returns (r: Result<Dict<string, string>, ParseError>)
    ensures r == ParseDocs(lines)
  {
    ghost var ks := Classified(lines);
    var docs: Dict<string, string> := [];
    var current := "";
    var neglect := false;
    var currentId: Option<string> := None;
    for i := 0 to |lines|
      invariant Run(ks[..i]) == Ok(State(docs, current, neglect, currentId))
    {
      ghost var prefix := ks[..i + 1];
      assert prefix[..|prefix| - 1] == ks[..i] && prefix[|prefix| - 1] == Classify(lines[i]);
      var err;
      err, docs, current, neglect, currentId := ProcessLine(docs, current, neglect, currentId, lines[i]);
      if err.Some? {
        RunErrSticky(ks, i + 1);
        return Err(err.value);
      }
    }
    assert ks[..|lines|] == ks;
    if currentId.Some? {
      docs := Put(docs, currentId.value, current);
    }
    r := Ok(docs);
  }

  /** Whether the lines `ks` after a `.I` line leave capture on: no marker, or last `.T`/`.W`. */
  predicate Capturing(ks: seq<CisiLine>) {
    if ks == [] then true
    else
      var k := ks[|ks| - 1];
      if k.Tag? then !Neglects(k.marker) else Capturing(ks[..|ks| - 1])
  }

  /**
   * The document the lines `ks` after a `.I` line make: each content line
   * read while capture is on, preceded by a space, in order.  Marker lines
   * and blank lines contribute nothing.
   */
  function SectionText(ks: seq<CisiLine>): string {
    if ks == [] then ""
    else
      var init := ks[..|ks| - 1];
      var k := ks[|ks| - 1];
      SectionText(init) + if k.Content? && Capturing(init) then " " + k.text else ""
  }

  /** Every document is empty or starts with a space. */
  lemma {:induction false} SectionTextSpaced(ks: seq<CisiLine>)
    ensures SectionText(ks) == "" || SectionText(ks)[0] == ' '
  {
    if ks != [] {
      SectionTextSpaced(ks[..|ks| - 1]);
    }
  }

  /**
   * A `.I` line with number `id` followed by lines `body` with no `.I` line:
   * the documents before it have been stored, and the open document is `id`
   * with the text `body` makes.
   */
  lemma {:induction false} RunSection(a: seq<CisiLine>, id: string, body: seq<CisiLine>)
    requires Run(a).Ok? && NoStarts(body)
    ensures Run(a + [Start(Some(id))] + body) == Ok(State(Flush(Run(a).value), SectionText(body), !Capturing(body), Some(id)))
  {
    var ks := a + [Start(Some(id))] + body;
    if body == [] {
      assert ks[..|ks| - 1] == a;
    } else {
      var init := body[..|body| - 1];
      assert ks[..|ks| - 1] == a + [Start(Some(id))] + init;
      assert NoStarts(init);
      RunSection(a, id, init);
      var k := body[|body| - 1];
      assert !k.Start?;
      var st := State(Flush(Run(a).value), SectionText(init), !Capturing(init), Some(id));
      assert Run(ks) == Step(st, k);
      match k
      case Blank =>
        assert SectionText(body) == SectionText(init) + "" == SectionText(init);
      case Tag(m) =>
        assert SectionText(body) == SectionText(init) + "" == SectionText(init);
      case Content(text) =>
        if Capturing(init) {
          assert SectionText(init) + " " + text == SectionText(init) + (" " + text);
        } else {
          assert SectionText(body) == SectionText(init) + "" == SectionText(init);
        }
    }
  }

  /**
   * The document of each `.I` line is stored under its id with the text the
   * lines up to the next `.I` line (or the end) make, replacing any earlier
   * document with that id.
   */
  lemma DocsOfSection(a: seq<CisiLine>, id: string, body: seq<CisiLine>)
    requires DocsOf(a).Ok? && NoStarts(body)
    ensures DocsOf(a + [Start(Some(id))] + body) == Ok(Put(DocsOf(a).value, id, SectionText(body)))
  {
    RunSection(a, id, body);
  }

  /** Before the first `.I` line nothing is stored and no document is open. */
  lemma {:induction false} PreambleRun(ks: seq<CisiLine>)
    requires NoStarts(ks)
    ensures Run(ks).Ok? && Run(ks).value.docs == [] && Run(ks).value.currentId == None
  {
    if ks != [] {
      var init := ks[..|ks| - 1];
      assert NoStarts(init);
      PreambleRun(init);
    }
  }

  /** Text before the first `.I` line is dropped: without one, nothing is stored. */
  lemma DocsOfPreamble(ks: seq<CisiLine>)
    requires NoStarts(ks)
    ensures DocsOf(ks) == Ok([])
  {
    PreambleRun(ks);
  }

  /** The parse fails exactly when the number of some `.I` line is not an integer. */
  lemma {:induction false} DocsOfOk(ks: seq<CisiLine>)
    ensures DocsOf(ks).Ok? <==> Start(None) !in ks
  {
    if ks != [] {
      var init := ks[..|ks| - 1];
      assert ks == init + [ks[|ks| - 1]];
      DocsOfOk(init);
    }
  }

  /** The stored ids are exactly the ids of the `.I` lines. */
  lemma {:induction false} DocsOfIds(ks: seq<CisiLine>, id: string)
    requires DocsOf(ks).Ok?
    ensures Get(DocsOf(ks).value, id).Some? <==> Start(Some(id)) in ks
  {
    if ks != [] {
      var init, k := ks[..|ks| - 1], ks[|ks| - 1];
      assert ks == init + [k];
      assert Run(init).Ok?;
      DocsOfIds(init, id);
      var st := Run(init).value;
      assert Run(ks) == Step(st, k);
      var next := Run(ks).value;
      assert Start(Some(id)) in ks <==> Start(Some(id)) in init || k == Start(Some(id));
      if k.Start? {
        GetPut(Flush(st), k.id.value, "", id);
      } else {
        assert next.docs == st.docs && next.currentId == st.currentId;
        if st.currentId.Some? {
          GetPut(st.docs, st.currentId.value, st.current, id);
          GetPut(st.docs, st.currentId.value, next.current, id);
        }
      }
    }
  }

  lemma {:induction false} RunInvariant(ks: seq<CisiLine>)
    requires Run(ks).Ok?
    ensures DistinctKeys(Run(ks).value.docs)
    ensures forall e :: e in Run(ks).value.docs ==> e.1 == "" || e.1[0] == ' '
    ensures Run(ks).value.currentId.Some? ==> Run(ks).value.current == "" || Run(ks).value.current[0] == ' '
  {
    if ks != [] {
      var init := ks[..|ks| - 1];
      assert Run(init).Ok?;
      RunInvariant(init);
      var st := Run(init).value;
      if st.currentId.Some? {
        PutDistinct(st.docs, st.currentId.value, st.current);
        PutEntries(st.docs, st.currentId.value, st.current);
      }
    }
  }

  /** No id is stored twice, and every stored document is empty or starts with a space. */
  lemma DocsOfShape(ks: seq<CisiLine>)
    requires DocsOf(ks).Ok?
    ensures DistinctKeys(DocsOf(ks).value)
    ensures forall e :: e in DocsOf(ks).value ==> e.1 == "" || e.1[0] == ' '
  {
    RunInvariant(ks);
    var st := Run(ks).value;
    if st.currentId.Some? {
      PutDistinct(st.docs, st.currentId.value, st.current);
      PutEntries(st.docs, st.currentId.value, st.current);
    }
  }

  lemma {:induction false} RunBlank(a: seq<CisiLine>, b: seq<CisiLine>)
    ensures Run(a + [Blank] + b) == Run(a + b)
  {
    var ks := a + [Blank] + b;
    if b == [] {
      assert ks[..|ks| - 1] == a && a + b == a;
    } else {
      var init := b[..|b| - 1];
      assert ks[..|ks| - 1] == a + [Blank] + init;
      assert (a + b)[..|a + b| - 1] == a + init;
      RunBlank(a, init);
    }
  }

  /** A line that is blank after stripping changes nothing. */
  lemma BlankLineIgnored(a: seq<string>, line: string, b: seq<string>)
    requires Text.AllSpace(line)
    ensures ParseDocs(a + [line] + b) == ParseDocs(a + b)
  {
    ClassifiedInsert(a, line, b);
    RunBlank(Classified(a), Classified(b));
  }
}
