/**
 * main_medium.py's graph, START -> call_llm -> parse_books ->
 * process_books -> END: the whole reply is collected first, then cut
 * into lines, each stripped line decoded, and the decoded records
 * processed in order.
 */
module Medium {
  import opened Json
  import opened PyText
  import opened Chunks
  import opened Books
  import Reader

  /** The text call_llm collects from the chunks: every string piece and
      every "text" element, in order; None when a text element has no
      "text" entry (KeyError). */
  function Collected(chunks: seq<Content>): Option<string>
    decreases |chunks|
  {
    if chunks == [] then Some("") else Then(MediumPiece(chunks[0]), Collected(chunks[1..]))
  }

  /** call_llm's `response`, None when it raises: a missing "text" entry,
      or the stream itself raising (`fails`) after its chunks. */
  function Response(chunks: seq<Content>, fails: bool): Option<string> {
    if fails then None else Collected(chunks)
  }

  lemma ThenEmpty(x: Option<string>)
    ensures Then(Some(""), x) == x
  {
    if x.Some? {
      assert "" + x.value == x.value;
    }
  }

  /** One "text" element taken into the content. */
  lemma TakeText(c: string, t: string, a: Option<string>, x: Option<string>)
    ensures Then(Some(c), Then(Then(Some(t), a), x)) == Then(Some(c + t), Then(a, x))
  {
    ThenAssoc(Some(t), a, x);
    ThenAssoc(Some(c), Some(t), Then(a, x));
  }

  /** `call_llm`: `content += piece` for a string piece, and for a list
      `content += el["text"]` for each element typed "text". */
  method CallLlm(chunks: seq<Content>, fails: bool) returns (r: Option<string>)
    ensures r == Response(chunks, fails)
  {
    var content := "";
    ThenEmpty(Collected(chunks));
    for i := 0 to |chunks|
      invariant Then(Some(content), Collected(chunks[i..])) == Collected(chunks)
    {
      var piece := chunks[i];
      var later := Collected(chunks[i + 1..]);
      assert chunks[i..][1..] == chunks[i + 1..];
      assert Collected(chunks[i..]) == Then(MediumPiece(piece), later);
      if Truthy(piece) {
        if piece.Text? {
          ThenAssoc(Some(content), Some(piece.s), later);
          content := content + piece.s;
        } else {
          var es := piece.elems;
          assert es[0..] == es;
          for j := 0 to |es|
            invariant Then(Some(content), Then(AllText(es[j..]), later)) == Collected(chunks)
          {
            var el := es[j];
            assert es[j..][1..] == es[j + 1..];
            if IsText(el) {
              if el.text.None? {
                return None;
              }
              TakeText(content, el.text.value, AllText(es[j + 1..]), later);
              content := content + el.text.value;
            }
          }
          ThenEmpty(later);
        }
      } else {
        ThenEmpty(later);
      }
    }
    assert Then(Some(content), Some("")) == Some(content + "");
    assert content + "" == content;
    if fails {
      return None;
    }
    return Some(content);
  }

  /** The collected text does not depend on where the chunks are cut: the
      text of two runs of chunks is the text of the first then the second. */
  lemma {:induction false} CollectedAppend(a: seq<Content>, b: seq<Content>)
    ensures Collected(a + b) == Then(Collected(a), Collected(b))
    decreases |a|
  {
    if a == [] {
      assert a + b == b;
      ThenEmpty(Collected(b));
    } else {
      assert (a + b)[1..] == a[1..] + b;
      CollectedAppend(a[1..], b);
      ThenAssoc(MediumPiece(a[0]), Collected(a[1..]), Collected(b));
    }
  }

  /** A chunk without any element of another type than "text". */
  ghost predicate AllTextParts(c: Content) {
    c.Parts? ==> forall k :: 0 <= k < |c.elems| ==> IsText(c.elems[k])
  }

  /** Where no list holds an element of another type, main_medium.py
      collects exactly the text main.py's reader accumulates. */
  lemma {:induction false} CollectedIsJoined(chunks: seq<Content>)
    requires forall k :: 0 <= k < |chunks| ==> AllTextParts(chunks[k])
    requires Reader.AllPieces(chunks)
    ensures Collected(chunks) == Some(Reader.Joined(chunks))
    decreases |chunks|
  {
    if chunks != [] {
      var c := chunks[0];
      assert AllTextParts(c);
      if c.Parts? {
        LeadTextAllText(c.elems);
      }
      assert Reader.AllPieces(chunks[1..]) by {
        forall k | 0 <= k < |chunks[1..]| ensures StreamPiece(chunks[1..][k]).Some? {
          assert chunks[1..][k] == chunks[k + 1];
        }
      }
      CollectedIsJoined(chunks[1..]);
    }
  }

  /** What parse_books keeps of one line: its stripped text decoded, when
      that text is not empty and decodes. */
  function Keep(line: string, d: Decoder): (r: seq<Value>)
    ensures |r| <= 1
    ensures |r| == 1 <==> Strip(line) != [] && d(Strip(line)).Some?
    ensures |r| == 1 ==> r[0] == d(Strip(line)).value
  {
    var l := Strip(line);
    if l != [] && d(l).Some? then [d(l).value] else []
  }

  /** The records parse_books makes of the lines, in line order. */
  function ParseLines(lines: seq<string>, d: Decoder): seq<Value>
    decreases |lines|
  {
    if lines == [] then [] else Keep(lines[0], d) + ParseLines(lines[1..], d)
  }

  /** `state['response'].strip().split('\n')`, parsed. */
  function Parse(response: string, d: Decoder): seq<Value> {
    ParseLines(SplitLines(Strip(response)), d)
  }

  /** The number of lines that are not blank once stripped. */
  function NonBlank(lines: seq<string>): nat
    decreases |lines|
  {
    if lines == [] then 0 else (if Strip(lines[0]) != [] then 1 else 0) + NonBlank(lines[1..])
  }

  /** `parse_books`: a line that strips to nothing is skipped, and so is
      one whose decode raises JSONDecodeError. */
  method ParseBooks(response: string, d: Decoder) returns (books: seq<Value>)
    ensures books == Parse(response, d)
  {
    var lines := SplitLines(Strip(response));
    books := [];
    assert lines[0..] == lines;
    assert books + ParseLines(lines, d) == ParseLines(lines, d);
    for i := 0 to |lines|
      invariant books + ParseLines(lines[i..], d) == ParseLines(lines, d)
    {
      ParseStep(books, lines, i, d);
      var line := Strip(lines[i]);
      if line != [] {
        var book := d(line);
        if book.Some? {
          assert Keep(lines[i], d) == [book.value];
          books := books + [book.value];
        } else {
          assert books + Keep(lines[i], d) == books;
        }
      } else {
        assert books + Keep(lines[i], d) == books;
      }
    }
    assert books + [] == books;
  }

  lemma ParseStep(books: seq<Value>, lines: seq<string>, i: nat, d: Decoder)
    requires i < |lines|
    ensures books + ParseLines(lines[i..], d) == (books + Keep(lines[i], d)) + ParseLines(lines[i + 1..], d)
  {
    assert lines[i..][1..] == lines[i + 1..];
  }

  /** Parsing keeps line order: the records of two runs of lines are the
      records of the first followed by those of the second. */
  lemma {:induction false} ParseLinesAppend(a: seq<string>, b: seq<string>, d: Decoder)
    ensures ParseLines(a + b, d) == ParseLines(a, d) + ParseLines(b, d)
    decreases |a|
  {
    if a == [] {
      assert a + b == b;
    } else {
      assert (a + b)[1..] == a[1..] + b;
      ParseLinesAppend(a[1..], b, d);
      assert Keep(a[0], d) + (ParseLines(a[1..], d) + ParseLines(b, d))
          == (Keep(a[0], d) + ParseLines(a[1..], d)) + ParseLines(b, d);
    }
  }

  /** A skipped line costs a record: there are at most as many records as
      non-blank lines, and exactly as many when every one of them decodes. */
  lemma {:induction false} ParseLinesBound(lines: seq<string>, d: Decoder)
    ensures |ParseLines(lines, d)| <= NonBlank(lines)
    ensures (forall k :: 0 <= k < |lines| && Strip(lines[k]) != [] ==> d(Strip(lines[k])).Some?)
            ==> |ParseLines(lines, d)| == NonBlank(lines)
    decreases |lines|
  {
    if lines != [] {
      ParseLinesBound(lines[1..], d);
      if forall k :: 0 <= k < |lines| && Strip(lines[k]) != [] ==> d(Strip(lines[k])).Some? {
        assert forall k :: 0 <= k < |lines[1..]| ==> lines[1..][k] == lines[k + 1];
      }
    }
  }

  /** Every record is the decode of a line that is not blank. */
  lemma {:induction false} ParseLinesSound(lines: seq<string>, d: Decoder, v: Value)
    requires v in ParseLines(lines, d)
    ensures exists k :: 0 <= k < |lines| && Strip(lines[k]) != [] && d(Strip(lines[k])) == Some(v)
    decreases |lines|
  {
    if v in Keep(lines[0], d) {
      assert Strip(lines[0]) != [] && d(Strip(lines[0])) == Some(v);
    } else {
      ParseLinesSound(lines[1..], d, v);
      var k :| 0 <= k < |lines[1..]| && Strip(lines[1..][k]) != [] && d(Strip(lines[1..][k])) == Some(v);
      assert lines[1..][k] == lines[k + 1];
    }
  }

  /** `process_books`: `process_book` on each record in turn, the i-th
      drawing coin i. */
  method ProcessBooks(books: seq<Value>, coins: nat -> bool) returns (processed: seq<Value>)
    ensures processed == ProcessAll(books, 0, coins)
  {
    processed := [];
    for i := 0 to |books|
      invariant |processed| == i
      invariant forall k :: 0 <= k < i ==> processed[k] == Processed(books[k], coins(k))
    {
      var b := ProcessBook(books[i], coins(i));
      processed := processed + [b];
    }
  }

  /** A run of the graph: None when call_llm raises, else the parsed
      records, processed. */
  method RunMedium(chunks: seq<Content>, fails: bool, d: Decoder, coins: nat -> bool)
    returns (r: Option<seq<Value>>)
    ensures Response(chunks, fails).None? <==> r.None?
    ensures r.Some? ==> r.value == ProcessAll(Parse(Response(chunks, fails).value, d), 0, coins)
  {
    var response := CallLlm(chunks, fails);
    if response.None? {
      return None;
    }
    var books := ParseBooks(response.value, d);
    var processed := ProcessBooks(books, coins);
    return Some(processed);
  }
}
