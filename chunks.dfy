/**
 * The chunks a streaming model call yields, and the two ways the programs
 * turn a chunk into text. A chunk's `content` is missing, a string, or a
 * list of typed elements; main.py keeps the text elements up to the first
 * element of another type, main_medium.py keeps every text element.
 */
module Chunks {
  import opened Json

  /** One element of list-valued content: its "type" entry (`""` when the
      element has none) and its "text" entry, if any. */
  datatype Element = Element(kind: string, text: Option<string>)

  /** `getattr(chunk, "content", None)`. */
  datatype Content = Absent | Text(s: string) | Parts(elems: seq<Element>)

  /** `if piece:` -- None, the empty string and the empty list are false. */
  predicate Truthy(c: Content) {
    match c
    case Absent => false
    case Text(s) => s != []
    case Parts(es) => es != []
  }

  predicate IsText(e: Element) {
    e.kind == "text"
  }

  /** Appending text to an accumulator that may already have failed. */
  function Then(o: Option<string>, p: Option<string>): (r: Option<string>)
    ensures r.Some? <==> o.Some? && p.Some?
  {
    match o
    case None => None
    case Some(a) => match p
      case None => None
      case Some(b) => Some(a + b)
  }

  /** main.py: the text of the text elements in order, stopping at the
      first element of another type; None when a text element has no
      "text" entry, which raises KeyError. */
  function LeadText(es: seq<Element>): Option<string>
    decreases |es|
  {
    if es == [] || !IsText(es[0]) then Some("")
    else Then(es[0].text, LeadText(es[1..]))
  }

  /** main_medium.py: the text of every text element in order, other
      elements skipped. */
  function AllText(es: seq<Element>): Option<string>
    decreases |es|
  {
    if es == [] then Some("")
    else if !IsText(es[0]) then AllText(es[1..])
    else Then(es[0].text, AllText(es[1..]))
  }

  /** Number of leading text elements: where main.py's loop breaks. */
  function TextRun(es: seq<Element>): (n: nat)
    ensures n <= |es|
    ensures forall k :: 0 <= k < n ==> IsText(es[k])
    ensures n == |es| || !IsText(es[n])
    decreases |es|
  {
    if es == [] || !IsText(es[0]) then 0 else 1 + TextRun(es[1..])
  }

  /** The text elements of a list, in order. */
  function TextElems(es: seq<Element>): (r: seq<Element>)
    ensures forall k :: 0 <= k < |r| ==> IsText(r[k])
    decreases |es|
  {
    if es == [] then []
    else if IsText(es[0]) then [es[0]] + TextElems(es[1..])
    else TextElems(es[1..])
  }

  lemma ThenAssoc(a: Option<string>, b: Option<string>, c: Option<string>)
    ensures Then(Then(a, b), c) == Then(a, Then(b, c))
  {
    if a.Some? && b.Some? && c.Some? {
      assert (a.value + b.value) + c.value == a.value + (b.value + c.value);
    }
  }

  /** main.py's text is main_medium.py's text of the leading run of text
      elements: everything from the first other element on is dropped. */
  lemma {:induction false} LeadTextIsRunText(es: seq<Element>)
    ensures LeadText(es) == AllText(es[..TextRun(es)])
    decreases |es|
  {
    if es != [] && IsText(es[0]) {
      LeadTextIsRunText(es[1..]);
      assert es[..TextRun(es)][1..] == es[1..][..TextRun(es[1..])];
    }
  }

  /** Where every element is text, the two programs agree. */
  lemma {:induction false} LeadTextAllText(es: seq<Element>)
    requires forall k :: 0 <= k < |es| ==> IsText(es[k])
    ensures LeadText(es) == AllText(es)
    decreases |es|
  {
    if es != [] {
      LeadTextAllText(es[1..]);
    }
  }

  /** main_medium.py's text ignores the other elements: it is the text of
      the text elements alone. */
  lemma {:induction false} AllTextSkipsOthers(es: seq<Element>)
    ensures AllText(es) == AllText(TextElems(es))
    decreases |es|
  {
    if es != [] {
      AllTextSkipsOthers(es[1..]);
      if IsText(es[0]) {
        assert ([es[0]] + TextElems(es[1..]))[1..] == TextElems(es[1..]);
      }
    }
  }

  /** main_medium.py's text of two lists run together is the text of the
      first followed by the text of the second. */
  lemma {:induction false} AllTextAppend(a: seq<Element>, b: seq<Element>)
    ensures AllText(a + b) == Then(AllText(a), AllText(b))
    decreases |a|
  {
    if a == [] {
      assert a + b == b;
      if AllText(b).Some? {
        assert "" + AllText(b).value == AllText(b).value;
      }
    } else {
      assert (a + b)[1..] == a[1..] + b;
      AllTextAppend(a[1..], b);
      if IsText(a[0]) {
        ThenAssoc(a[0].text, AllText(a[1..]), AllText(b));
      }
    }
  }

  /** The text a chunk adds to main.py's buffer. */
  function StreamPiece(c: Content): Option<string> {
    match c
    case Absent => Some("")
    case Text(s) => Some(s)
    case Parts(es) => LeadText(es)
  }

  /** The text a chunk adds to main_medium.py's `content`. */
  function MediumPiece(c: Content): Option<string> {
    match c
    case Absent => Some("")
    case Text(s) => Some(s)
    case Parts(es) => AllText(es)
  }
}
