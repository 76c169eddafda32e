/**
 * main_basic.py: the whole reply `content` is taken as given; each
 * stripped, non-blank line that decodes is processed on the spot and
 * kept.
 */
module Basic {
  import opened Json
  import opened PyText
  import opened Books
  import opened Medium

  /** The loop of `get_book_recommendations`: the i-th decoded line is
      processed with coin i, blank lines and lines whose decode raises
      JSONDecodeError are skipped. */
  method GetBookRecommendations(content: string, d: Decoder, coins: nat -> bool)
    returns (books: seq<Value>)
    ensures books == ProcessAll(Parse(content, d), 0, coins)
  {
    var lines := SplitLines(Strip(content));
    books := [];
    assert lines[0..] == lines;
    assert books + ProcessAll(ParseLines(lines, d), 0, coins) == ProcessAll(ParseLines(lines, d), 0, coins);
    for i := 0 to |lines|
      invariant books + ProcessAll(ParseLines(lines[i..], d), |books|, coins)
                == ProcessAll(ParseLines(lines, d), 0, coins)
    {
      var rest := ParseLines(lines[i + 1..], d);
      assert lines[i..][1..] == lines[i + 1..];
      assert ParseLines(lines[i..], d) == Keep(lines[i], d) + rest;
      var line := Strip(lines[i]);
      if line != [] {
        var book := d(line);
        if book.Some? {
          var processed := ProcessBook(book.value, coins(|books|));
          KeptStep(books, book.value, rest, coins);
          books := books + [processed];
        } else {
          assert Keep(lines[i], d) + rest == rest;
        }
      } else {
        assert Keep(lines[i], d) + rest == rest;
      }
    }
    assert books + [] == books;
  }

  /** Processing one more record moves it from the pending records onto
      the result. */
  lemma KeptStep(books: seq<Value>, v: Value, rest: seq<Value>, coins: nat -> bool)
    ensures books + ProcessAll([v] + rest, |books|, coins)
            == (books + [Processed(v, coins(|books|))]) + ProcessAll(rest, |books| + 1, coins)
  {
    ProcessAllCons([v] + rest, |books|, coins);
    assert ([v] + rest)[1..] == rest;
  }

  /** A line that decodes to something other than an object is kept as
      it is; an object stays an object. */
  lemma NonObjectKept(content: string, d: Decoder, coins: nat -> bool, i: nat)
    requires i < |Parse(content, d)|
    ensures var v := Parse(content, d)[i];
      && (!v.Obj? ==> ProcessAll(Parse(content, d), 0, coins)[i] == v)
      && (v.Obj? ==> ProcessAll(Parse(content, d), 0, coins)[i].Obj?)
  {
  }
}
