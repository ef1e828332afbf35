/**
 * The four-field CISI parser (`parsing/parser_docs.py`, and the query parser
 * `app/data/parsing/parser_query.py`, which is the same loop): each record
 * keeps its title, author, words and bibliographic text apart.
 */
module CisiFields {
  import opened Outcomes
  import opened Dicts
  import opened CisiLines
  import Text

  datatype Field = Title | Author | Words | Bibliographic

  datatype Record = Record(title: string, author: string, words: string, bibliographic: string)

  /** The record a `.I` line opens: every field empty. */
  const EmptyRecord := Record("", "", "", "")

  function FieldValue(r: Record, f: Field): string {
    match f
    case Title => r.title
    case Author => r.author
    case Words => r.words
    case Bibliographic => r.bibliographic
  }

  /** `current_doc[field] += text`. */
  function AppendTo(r: Record, f: Field, text: string): (r': Record)
    ensures FieldValue(r', f) == FieldValue(r, f) + text
    ensures forall g :: g != f ==> FieldValue(r', g) == FieldValue(r, g)
  {
    match f
    case Title => r.(title := r.title + text)
    case Author => r.(author := r.author + text)
    case Words => r.(words := r.words + text)
    case Bibliographic => r.(bibliographic := r.bibliographic + text)
  }

  /** The field a marker selects; `.X` selects none. */
  function FieldOf(m: Marker): Option<Field> {
    match m
    case T => Some(Title)
    case A => Some(Author)
    case W => Some(Words)
    case B => Some(Bibliographic)
    case X => None
  }

  /** A line that is appended to the current field: content, and the unknown marker `.X`. */
  predicate Appends(k: CisiLine) {
    k.Content? || (k.Tag? && FieldOf(k.marker).None?)
  }

  /** The text such a line appends. */
  function LineText(k: CisiLine): string
    requires Appends(k)
  {
    if k.Content? then k.text else MarkerLine(k.marker)
  }

  /**
   * Why the script stops: `int()` rejects the number of a `.I` line, or a
   * line is appended to a field before the first `.I`, where `current_doc` is
   * still the empty dict `{}` and has no such key.
   */
  datatype ParseError = InvalidId | NoRecord

  /**
   * The loop's variables: `docs`, `current_doc` (`None` while it is still the
   * initial `{}`), `current_field` and `current_id`.
   */
  datatype State = State(records: Dict<string, Record>, current: Option<Record>, field: Option<Field>, currentId: Option<string>)

  const Initial := State([], None, None, None)

  /**
   * `if current_id: docs[current_id] = current_doc`; a started record always
   * has its four fields (`RunShape`).
   */
  function Flush(st: State): Dict<string, Record> {
    if st.currentId.Some? && st.current.Some? then Put(st.records, st.currentId.value, st.current.value)
    else st.records
  }

  /** `current_doc[current_field] += text`, where a field is selected. */
  function AppendLine(st: State, text: string): Result<State, ParseError> {
    if st.field.None? then Ok(st)
    else if st.current.None? then Err(NoRecord)
    else Ok(st.(current := Some(AppendTo(st.current.value, st.field.value, text))))
  }

  /** One pass of the loop body. */
  function Step(st: State, k: CisiLine): Result<State, ParseError> {
    match k
    case Blank => Ok(st)
    case Start(id) => if id.None? then Err(InvalidId) else Ok(State(Flush(st), Some(EmptyRecord), None, id))
    case Tag(m) => if FieldOf(m).Some? then Ok(st.(field := FieldOf(m))) else AppendLine(st, MarkerLine(m))
    case Content(text) => AppendLine(st, text)
  }

  /** The state after the lines `ks`, or the error that stopped the loop. */
  function Run(ks: seq<CisiLine>): Result<State, ParseError> {
    if ks == [] then Ok(Initial)
    else
      match Run(ks[..|ks| - 1])
      case Err(e) => Err(e)
      case Ok(st) => Step(st, ks[|ks| - 1])
  }

  /** The records after the final flush. */
  function RecordsOf(ks: seq<CisiLine>): Result<Dict<string, Record>, ParseError> {
    match Run(ks)
    case Err(e) => Err(e)
    case Ok(st) => Ok(Flush(st))
  }

  /** What the script writes out for the lines of a CISI file. */
  function ParseRecords(lines: seq<string>): Result<Dict<string, Record>, ParseError> {
    RecordsOf(Classified(lines))
  }

  lemma {:induction false} RunErrSticky(ks: seq<CisiLine>, n: nat)
    requires n <= |ks| && Run(ks[..n]).Err?
    ensures Run(ks) == Run(ks[..n])
  {
    if n < |ks| {
      var init := ks[..|ks| - 1];
      assert init[..n] == ks[..n];
      RunErrSticky(init, n);
    } else {
      assert ks[..n] == ks;
    }
  }

  /**
   * The loop body on one line, over the loop's variables; `err` is the
   * exception it raises, if any.
   */
  method ProcessLine(records: Dict<string, Record>, current: Option<Record>, field: Option<Field>, currentId: Option<string>, rawLine: string)
    returns (err: Option<ParseError>, records': Dict<string, Record>, current': Option<Record>, field': Option<Field>, currentId': Option<string>)
    requires currentId.Some? ==> current.Some?
    ensures var next := Step(State(records, current, field, currentId), Classify(rawLine));
      match err
      case None => next == Ok(State(records', current', field', currentId'))
      case Some(e) => next == Err(e)
    ensures err.None? ==> (currentId'.Some? ==> current'.Some?)
  {
    err, records', current', field', currentId' := None, records, current, field, currentId;
    var line := Text.Strip(rawLine);
    if line == [] {
      return;
    }
    if Text.StartsWith(line, ".I ") {
      if currentId'.Some? {
        records' := Put(records', currentId'.value, current'.value);
      }
      var id := Text.NormalizeId(line[3..]);
      if id.None? {
        err := Some(InvalidId);
        return;
      }
      currentId' := id;
      current' := Some(EmptyRecord);
      field' := None;
    } else if line == ".T" {
      field' := Some(Title);
    } else if line == ".A" {
      field' := Some(Author);
    } else if line == ".W" {
      field' := Some(Words);
    } else if line == ".B" {
      field' := Some(Bibliographic);
    } else if field'.Some? {
      if current'.None? {
        err := Some(NoRecord);
        return;
      }
      current' := Some(AppendTo(current'.value, field'.value, Text.Strip(line)));
    }
  }

  /** The loop of the script, over the lines of the file. */
  method ParseCisiRecords(lines: seq<string>) returns (r: Result<Dict<string, Record>, ParseError>)
    ensures r == ParseRecords(lines)
  {
    ghost var ks := Classified(lines);
    var records: Dict<string, Record> := [];
    var current: Option<Record> := None;
    var field: Option<Field> := None;
    var currentId: Option<string> := None;
    for i := 0 to |lines|
      invariant Run(ks[..i]) == Ok(State(records, current, field, currentId))
      invariant currentId.Some? ==> current.Some?
    {
      ghost var prefix := ks[..i + 1];
      assert prefix[..|prefix| - 1] == ks[..i] && prefix[|prefix| - 1] == Classify(lines[i]);
      var err;
      err, records, current, field, currentId := ProcessLine(records, current, field, currentId, lines[i]);
      if err.Some? {
        RunErrSticky(ks, i + 1);
        return Err(err.value);
      }
    }
    assert ks[..|lines|] == ks;
    if currentId.Some? {
      records := Put(records, currentId.value, current.value);
    }
    r := Ok(records);
  }

  /** The field the last field marker among `ks` selects, if any. */
  function Selected(ks: seq<CisiLine>): Option<Field> {
    if ks == [] then None
    else
      var k := ks[|ks| - 1];
      if k.Tag? && FieldOf(k.marker).Some? then FieldOf(k.marker) else Selected(ks[..|ks| - 1])
  }

  /**
   * Field `f` of a record whose lines are `ks`: the texts of the appending
   * lines whose most recent field marker selects `f`, in order and with
   * nothing between them.  Blank lines and field markers contribute nothing.
   */
  function FieldText(ks: seq<CisiLine>, f: Field): string {
    if ks == [] then ""
    else
      var init := ks[..|ks| - 1];
      var k := ks[|ks| - 1];
      FieldText(init, f) + if Appends(k) && Selected(init) == Some(f) then LineText(k) else ""
  }

  /** The record the lines `ks` after a `.I` line fill in. */
  function SectionRecord(ks: seq<CisiLine>): (r: Record)
    ensures forall f :: FieldValue(r, f) == FieldText(ks, f)
  {
    Record(FieldText(ks, Title), FieldText(ks, Author), FieldText(ks, Words), FieldText(ks, Bibliographic))
  }

  /** The last line of a record appends its text to the field selected before it. */
  lemma SectionRecordSnoc(ks: seq<CisiLine>)
    requires ks != []
    ensures var init, k := ks[..|ks| - 1], ks[|ks| - 1];
      SectionRecord(ks) ==
        if Appends(k) && Selected(init).Some? then AppendTo(SectionRecord(init), Selected(init).value, LineText(k))
        else SectionRecord(init)
  {
    var init, k := ks[..|ks| - 1], ks[|ks| - 1];
    var r := SectionRecord(ks);
    var expected := if Appends(k) && Selected(init).Some? then AppendTo(SectionRecord(init), Selected(init).value, LineText(k)) else SectionRecord(init);
    assert FieldValue(r, Title) == FieldValue(expected, Title);
    assert FieldValue(r, Author) == FieldValue(expected, Author);
    assert FieldValue(r, Words) == FieldValue(expected, Words);
    assert FieldValue(r, Bibliographic) == FieldValue(expected, Bibliographic);
  }

  /** Some line of `ks` is appended to a selected field. */
  predicate Stray(ks: seq<CisiLine>) {
    ks != [] && (Stray(ks[..|ks| - 1]) || (Appends(ks[|ks| - 1]) && Selected(ks[..|ks| - 1]).Some?))
  }

  /** The lines before the first `.I` line. */
  function Preamble(ks: seq<CisiLine>): (p: seq<CisiLine>)
    ensures NoStarts(p) && p <= ks
  {
    if ks == [] || ks[0].Start? then [] else [ks[0]] + Preamble(ks[1..])
  }

  lemma {:induction false} PreambleSnoc(ks: seq<CisiLine>, k: CisiLine)
    ensures Preamble(ks + [k]) == if !NoStarts(ks) then Preamble(ks) else if k.Start? then ks else ks + [k]
  {
    if ks != [] {
      assert (ks + [k])[1..] == ks[1..] + [k];
      if !ks[0].Start? {
        PreambleSnoc(ks[1..], k);
        if NoStarts(ks) {
          assert NoStarts(ks[1..]);
        } else {
          var i :| 0 <= i < |ks| && ks[i].Start?;
          assert ks[1..][i - 1].Start?;
        }
      }
    }
  }

  /**
   * Before the first `.I` line nothing is stored and no record is open;
   * the lines only select fields, and the parse fails as soon as a line is
   * appended to a selected field.
   */
  lemma {:induction false} PreambleRun(ks: seq<CisiLine>)
    requires NoStarts(ks)
    ensures Run(ks) == if Stray(ks) then Err(NoRecord) else Ok(State([], None, Selected(ks), None))
  {
    if ks != [] {
      var init := ks[..|ks| - 1];
      assert NoStarts(init);
      PreambleRun(init);
      if Stray(init) {
        RunErrSticky(ks, |init|);
      }
    }
  }

  /** After the first `.I` line a record is always open. */
  lemma {:induction false} RunShape(ks: seq<CisiLine>)
    requires Run(ks).Ok?
    ensures Run(ks).value.currentId.Some? <==> !NoStarts(ks)
    ensures Run(ks).value.current.Some? <==> !NoStarts(ks)
  {
    if ks != [] {
      var init := ks[..|ks| - 1];
      assert Run(init).Ok?;
      RunShape(init);
      if !NoStarts(init) {
        var i :| 0 <= i < |init| && init[i].Start?;
        assert ks[i].Start?;
      }
    }
  }

  /**
   * The parse fails exactly when a `.I` number is not an integer, or when a
   * line before the first `.I` is appended to a selected field.
   */
  lemma {:induction false} RecordsOfOk(ks: seq<CisiLine>)
    ensures RecordsOf(ks).Ok? <==> Start(None) !in ks && !Stray(Preamble(ks))
  {
    if ks != [] {
      var init := ks[..|ks| - 1];
      var k := ks[|ks| - 1];
      assert ks == init + [k];
      RecordsOfOk(init);
      PreambleSnoc(init, k);
      if NoStarts(init) {
        PreambleRun(init);
      } else if Run(init).Ok? {
        RunShape(init);
      }
    }
  }

  /**
   * A `.I` line with number `id` followed by lines `body` with no `.I` line:
   * the records before it have been stored, and the open record is `id` with
   * the fields `body` fills in.
   */
  lemma {:induction false} RunSection(a: seq<CisiLine>, id: string, body: seq<CisiLine>)
    requires Run(a).Ok? && NoStarts(body)
    ensures Run(a + [Start(Some(id))] + body) == Ok(State(Flush(Run(a).value), Some(SectionRecord(body)), Selected(body), Some(id)))
  {
    var ks := a + [Start(Some(id))] + body;
    if body == [] {
      assert ks[..|ks| - 1] == a;
    } else {
      var init, k := body[..|body| - 1], body[|body| - 1];
      var pre := a + [Start(Some(id))] + init;
      assert ks[..|ks| - 1] == pre && ks[|ks| - 1] == k;
      assert NoStarts(init) && !k.Start?;
      RunSection(a, id, init);
      var st := Run(pre).value;
      assert Run(ks) == Step(st, k);
      SectionRecordSnoc(body);
    }
  }

  /**
   * The record of each `.I` line is stored under its id, with the fields the
   * lines up to the next `.I` line (or the end) fill in, replacing any earlier
   * record with that id.
   */
  lemma RecordsOfSection(a: seq<CisiLine>, id: string, body: seq<CisiLine>)
    requires RecordsOf(a).Ok? && NoStarts(body)
    ensures RecordsOf(a + [Start(Some(id))] + body) == Ok(Put(RecordsOf(a).value, id, SectionRecord(body)))
  {
    RunSection(a, id, body);
  }

  /** The stored ids are exactly the ids of the `.I` lines. */
  lemma {:induction false} RecordsOfIds(ks: seq<CisiLine>, id: string)
    requires RecordsOf(ks).Ok?
    ensures Get(RecordsOf(ks).value, id).Some? <==> Start(Some(id)) in ks
  {
    if ks != [] {
      var init, k := ks[..|ks| - 1], ks[|ks| - 1];
      assert ks == init + [k];
      assert Run(init).Ok?;
      RecordsOfIds(init, id);
      var st := Run(init).value;
      assert Run(ks) == Step(st, k);
      var next := Run(ks).value;
      assert Start(Some(id)) in ks <==> Start(Some(id)) in init || k == Start(Some(id));
      if k.Start? {
        GetPut(Flush(st), k.id.value, EmptyRecord, id);
      } else {
        RunShape(init);
        RunShape(ks);
        assert NoStarts(ks) <==> NoStarts(init);
        assert next.records == st.records && next.currentId == st.currentId;
        if st.currentId.Some? {
          GetPut(st.records, st.currentId.value, st.current.value, id);
          GetPut(st.records, st.currentId.value, next.current.value, id);
        }
      }
    }
  }

  lemma {:induction false} RunDistinct(ks: seq<CisiLine>)
    requires Run(ks).Ok?
    ensures DistinctKeys(Run(ks).value.records)
  {
    if ks != [] {
      var init := ks[..|ks| - 1];
      assert Run(init).Ok?;
      RunDistinct(init);
      var st := Run(init).value;
      if st.currentId.Some? && st.current.Some? {
        PutDistinct(st.records, st.currentId.value, st.current.value);
      }
    }
  }

  /** No id is stored twice. */
  lemma RecordsOfDistinct(ks: seq<CisiLine>)
    requires RecordsOf(ks).Ok?
    ensures DistinctKeys(RecordsOf(ks).value)
  {
    RunDistinct(ks);
    var st := Run(ks).value;
    if st.currentId.Some? && st.current.Some? {
      PutDistinct(st.records, st.currentId.value, st.current.value);
    }
  }

  lemma {:induction false} RunBlank(a: seq<CisiLine>, b: seq<CisiLine>)
    ensures Run(a + [Blank] + b) == Run(a + b)
  {
    var ks := a + [Blank] + b;
    if b == [] {
      assert ks[..|ks| - 1] == a && a + b == a;
    } else {
      var init := b[..|b| - 1];
      assert ks[..|ks| - 1] == a + [Blank] + init;
      assert (a + b)[..|a + b| - 1] == a + init;
      RunBlank(a, init);
    }
  }

  /** A line that is blank after stripping changes nothing. */
  lemma BlankLineIgnored(a: seq<string>, line: string, b: seq<string>)
    requires Text.AllSpace(line)
    ensures ParseRecords(a + [line] + b) == ParseRecords(a + b)
  {
    ClassifiedInsert(a, line, b);
    RunBlank(Classified(a), Classified(b));
  }
}
