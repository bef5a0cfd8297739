/** The requirements field of the job editor
    (frontend/src/components/EditJob.tsx): a list shown as lines of a
    text area and read back on submit. */
module EditJobForm {
  import opened Text

  /** The `requirements` value a loaded job carries. */
  datatype Stored = List(items: seq<string>) | Scalar(s: string) | Absent

  /** The text area on load: an array joined with newlines, any other
      value as it is, a missing value as "". */
  function LoadRequirements(r: Stored): (text: string)
    ensures r.List? ==> text == Join(r.items, '\n')
    ensures r.Scalar? ==> text == r.s
    ensures r.Absent? ==> text == ""
  {
    match r
    case List(items) => Join(items, '\n')
    case Scalar(s) => s
    case Absent => ""
  }

  /** The lines that are not blank once trimmed, untrimmed and in order. */
  function NonBlank(lines: seq<string>): (kept: seq<string>)
    ensures |kept| <= |lines|
    ensures forall i | 0 <= i < |kept| :: Trim(kept[i]) != "" && kept[i] in lines
    ensures forall l | l in lines && Trim(l) != "" :: l in kept
  {
    if lines == [] then []
    else
      var rest := NonBlank(lines[1..]);
      assert forall l | l in lines :: l == lines[0] || l in lines[1..];
      if Trim(lines[0]) != "" then [lines[0]] + rest else rest
  }

  /** Dropping blank lines keeps the order: it distributes over
      concatenation. */
  lemma {:induction false} NonBlankConcat(a: seq<string>, b: seq<string>)
    ensures NonBlank(a + b) == NonBlank(a) + NonBlank(b)
  {
    if a == [] {
      assert a + b == b;
    } else {
      assert (a + b)[1..] == a[1..] + b;
      NonBlankConcat(a[1..], b);
    }
  }

  /** Lines that are all non-blank are kept as they are. */
  lemma {:induction false} NonBlankKeepsAll(lines: seq<string>)
    requires forall i | 0 <= i < |lines| :: Trim(lines[i]) != ""
    ensures NonBlank(lines) == lines
  {
    if lines != [] {
      NonBlankKeepsAll(lines[1..]);
    }
  }

  /** The requirements list on submit: the text split at newlines, blank
      lines dropped. */
  function SubmitRequirements(text: string): (reqs: seq<string>)
    ensures forall i | 0 <= i < |reqs| :: Trim(reqs[i]) != "" && '\n' !in reqs[i]
  {
    NonBlank(Split(text, '\n'))
  }

  /** Loading a list and submitting it unchanged gives the list back, when
      no entry holds a newline or is blank. */
  lemma {:induction false} RequirementsRoundTrip(items: seq<string>)
    requires forall i | 0 <= i < |items| :: '\n' !in items[i] && Trim(items[i]) != ""
    ensures SubmitRequirements(LoadRequirements(List(items))) == items
  {
    var text := Join(items, '\n');
    assert LoadRequirements(List(items)) == text;
    if items == [] {
      assert Split(text, '\n') == [""];
      assert Trim("") == "";
    } else {
      SplitJoin(items, '\n');
      NonBlankKeepsAll(items);
    }
  }
}
