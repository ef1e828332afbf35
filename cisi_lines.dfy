/**
 * The line classification shared by the CISI parsers that judge each line
 * after `strip()`: a blank line, a `.I n` record start, one of the field
 * markers `.T`, `.A`, `.W`, `.B`, `.X`, or a content line.
 */
module CisiLines {
  import opened Outcomes
  import Text

  /** The field markers of the CISI format. */
  datatype Marker = T | A | W | B | X

  /** What a line of a CISI file is, judged after stripping it. */
  datatype CisiLine =
    | Blank                      // nothing but whitespace
    | Start(id: Option<string>)  // `.I n`: `str(int(n))`, or `None` where `int` raises
    | Tag(marker: Marker)        // exactly one of the markers
    | Content(text: string)      // anything else, stripped

  /** The marker line spelling each marker. */
  function MarkerLine(m: Marker): string {
    match m
    case T => ".T"
    case A => ".A"
    case W => ".W"
    case B => ".B"
    case X => ".X"
  }

  /** The marker a stripped line spells, if any. */
  function MarkerOf(s: string): (r: Option<Marker>)
    ensures r.Some? ==> s == MarkerLine(r.value)
    ensures r.None? ==> forall m :: s != MarkerLine(m)
  {
    if s == ".T" then Some(T)
    else if s == ".A" then Some(A)
    else if s == ".W" then Some(W)
    else if s == ".B" then Some(B)
    else if s == ".X" then Some(X)
    else None
  }

  function Classify(line: string): (k: CisiLine)
    ensures k == Blank <==> Text.AllSpace(line)
    ensures k.Tag? ==> Text.Strip(line) == MarkerLine(k.marker)
    ensures k.Start? ==> Text.StartsWith(Text.Strip(line), ".I ")
  {
    var s := Text.Strip(line);
    if s == [] then Blank
    else if Text.StartsWith(s, ".I ") then Start(Text.NormalizeId(s[3..]))
    else
      match MarkerOf(s)
      case Some(m) => Tag(m)
      case None => Content(Text.Strip(s))
  }

  /** The classification of every line, in order. */
  function Classified(lines: seq<string>): (ks: seq<CisiLine>)
    ensures |ks| == |lines| && forall i :: 0 <= i < |lines| ==> ks[i] == Classify(lines[i])
  {
    seq(|lines|, i requires 0 <= i < |lines| => Classify(lines[i]))
  }

  /** Classifying a concatenation classifies each part. */
  lemma ClassifiedAppend(a: seq<string>, b: seq<string>)
    ensures Classified(a + b) == Classified(a) + Classified(b)
  {
    var ab := a + b;
    var lhs, rhs := Classified(ab), Classified(a) + Classified(b);
    forall i | 0 <= i < |ab| ensures lhs[i] == rhs[i] {
      if i < |a| {
        assert ab[i] == a[i] && rhs[i] == Classified(a)[i];
      } else {
        assert ab[i] == b[i - |a|] && rhs[i] == Classified(b)[i - |a|];
      }
    }
  }

  lemma ClassifiedInsert(a: seq<string>, line: string, b: seq<string>)
    ensures Classified(a + [line] + b) == Classified(a) + [Classify(line)] + Classified(b)
    ensures Classified(a + b) == Classified(a) + Classified(b)
  {
    ClassifiedAppend(a, [line]);
    ClassifiedAppend(a + [line], b);
    ClassifiedAppend(a, b);
    assert Classified([line]) == [Classify(line)];
  }

  /** No line starts a record. */
  predicate NoStarts(ks: seq<CisiLine>) {
    forall i :: 0 <= i < |ks| ==> !ks[i].Start?
  }

  /**
   * A record id is already in canonical form and is never empty, so Python's
   * `if current_id:` is the same test as "a record has been started".
   */
  lemma ClassifyStart(line: string, id: string)
    requires Classify(line) == Start(Some(id))
    ensures id != "" && Text.NormalizeId(id) == Some(id)
  {
    var s := Text.Strip(line);
    Text.NormalizeIdIdempotent(s[3..]);
  }

  /**
   * A content line is the stripped line, which is neither blank, nor a record
   * start, nor a marker, and which stripping again leaves as it is.
   */
  lemma ClassifyContent(line: string, text: string)
    requires Classify(line) == Content(text)
    ensures text == Text.Strip(line) && text != []
    ensures !Text.StartsWith(text, ".I ") && MarkerOf(text).None?
  {
    Text.StripIdempotent(line);
  }
}
