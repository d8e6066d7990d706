/** The hashtag scanner of the create handler: `content.match(/#\w+/g)`, the
    global matches of a `#` followed by one or more word characters, found left
    to right without overlap. `match` answers null instead of an empty array
    when nothing matches; the handler treats both alike, so the model returns
    the empty sequence. */
module HashtagScan {
  import opened Text

  /** The half-open character range [start, stop) of one match. */
  datatype Span = Span(start: nat, stop: nat)

  /** A match of /#\w+/ can start at `p`: a `#` immediately followed by a word
      character. */
  predicate TagStartsAt(s: String, p: int) {
    0 <= p && p + 1 < |s| && s[p] == '#' && IsWordChar(s[p + 1])
  }

  /** `sp` covers a `#`, then at least one word character, and stops only where
      the run of word characters ends (greedy `\w+`). */
  predicate IsMaximalTag(s: String, sp: Span) {
    && sp.start + 2 <= sp.stop <= |s|
    && s[sp.start] == '#'
    && (forall k :: sp.start < k < sp.stop ==> IsWordChar(s[k]))
    && (sp.stop == |s| || !IsWordChar(s[sp.stop]))
  }

  /** Each span ends no later than the next one starts. */
  predicate InOrder(spans: seq<Span>) {
    forall a, b :: 0 <= a < b < |spans| ==> spans[a].stop <= spans[b].start
  }

  /** A string the scanner can return: `#` and then only word characters, at least one. */
  predicate IsTag(t: String) {
    |t| >= 2 && t[0] == '#' && forall k :: 1 <= k < |t| ==> IsWordChar(t[k])
  }

  /** Where the run of word characters starting at `i` ends. */
  function WordRunEnd(s: String, i: nat): (j: nat)
    requires i <= |s|
    ensures i <= j <= |s|
    ensures forall k :: i <= k < j ==> IsWordChar(s[k])
    ensures j == |s| || !IsWordChar(s[j])
    decreases |s| - i
  {
    if i < |s| && IsWordChar(s[i]) then WordRunEnd(s, i + 1) else i
  }

  /** The matches of /#\w+/g at or after position `i`, left to right: the regex
      engine tries each position in turn and, after a match, resumes where the
      match ended. */
  function SpansFrom(s: String, i: nat): (r: seq<Span>)
    requires i <= |s|
    ensures forall k :: 0 <= k < |r| ==> IsMaximalTag(s, r[k]) && i <= r[k].start
    ensures InOrder(r)
    decreases |s| - i
  {
    if i + 1 >= |s| then []
    else if s[i] == '#' && IsWordChar(s[i + 1]) then
      var j := WordRunEnd(s, i + 1);
      [Span(i, j)] + SpansFrom(s, j)
    else
      SpansFrom(s, i + 1)
  }

  /** All matches in `s`. */
  function Spans(s: String): (r: seq<Span>)
    ensures forall k :: 0 <= k < |r| ==> IsMaximalTag(s, r[k])
    ensures InOrder(r)
  {
    SpansFrom(s, 0)
  }

  /** The matched texts, in match order and with repeats kept: the array the
      create handler loops over. */
  function Hashtags(s: String): (tags: seq<String>)
    ensures |tags| == |Spans(s)|
    ensures forall k :: 0 <= k < |tags| ==> IsTag(tags[k])
    ensures forall k :: 0 <= k < |tags| ==> tags[k] == s[Spans(s)[k].start..Spans(s)[k].stop]
  {
    var spans := Spans(s);
    seq(|spans|, k requires 0 <= k < |spans| => s[spans[k].start..spans[k].stop])
  }

  /** Every position where a match can start is the start of a returned match:
      the scanner misses no occurrence. */
  lemma {:induction false} SpansFromComplete(s: String, i: nat, p: int)
    requires i <= |s|
    requires i <= p && TagStartsAt(s, p)
    ensures exists k :: 0 <= k < |SpansFrom(s, i)| && SpansFrom(s, i)[k].start == p
    decreases |s| - i
  {
    var r := SpansFrom(s, i);
    if s[i] == '#' && IsWordChar(s[i + 1]) {
      var j := WordRunEnd(s, i + 1);
      if p == i {
        assert r[0].start == p;
      } else {
        // positions inside the match are word characters, never a '#'
        assert !IsWordChar(s[p]);
        assert j <= p;
        SpansFromComplete(s, j, p);
        var k :| 0 <= k < |SpansFrom(s, j)| && SpansFrom(s, j)[k].start == p;
        assert r[k + 1] == SpansFrom(s, j)[k];
      }
    } else {
      assert p != i;
      SpansFromComplete(s, i + 1, p);
    }
  }

  /** A span starts at `p` exactly when a match can start at `p`. */
  lemma {:induction false} SpanStartIffTagStart(s: String, p: int)
    ensures (exists k :: 0 <= k < |Spans(s)| && Spans(s)[k].start == p) <==> TagStartsAt(s, p)
  {
    if TagStartsAt(s, p) {
      SpansFromComplete(s, 0, p);
      assert Spans(s) == SpansFrom(s, 0);
    }
  }

  /** Content with no `#` immediately followed by a word character yields no
      hashtag, and content with one yields at least one. */
  lemma {:induction false} NoHashtagsIffNoTagStart(s: String)
    ensures Hashtags(s) == [] <==> forall p :: !TagStartsAt(s, p)
  {
    if Hashtags(s) != [] {
      var sp := Spans(s)[0];
      assert TagStartsAt(s, sp.start);
    }
    if exists p :: TagStartsAt(s, p) {
      var p :| TagStartsAt(s, p);
      SpanStartIffTagStart(s, p);
    }
  }

  /** The scanner's output is unchanged by the `trim` setter of the Hashtag
      name: a tag has no whitespace at either end. */
  lemma {:induction false} TagIsTrimmed(t: String)
    requires IsTag(t)
    ensures Trim(t) == t && t != []
  {
    assert !IsSpace(t[|t| - 1]) by {
      assert IsWordChar(t[|t| - 1]);
    }
  }

  /** A repeated hashtag is returned once per occurrence. */
  lemma {:induction false} RepeatedTagExample()
    ensures Hashtags("#foo #foo") == ["#foo", "#foo"]
  {
    var s := "#foo #foo";
    assert s[1] == 'f' && s[2] == 'o' && s[3] == 'o' && s[4] == ' '
      && s[5] == '#' && s[6] == 'f' && s[7] == 'o' && s[8] == 'o';
    assert WordRunEnd(s, 9) == 9;
    assert WordRunEnd(s, 8) == 9;
    assert WordRunEnd(s, 7) == 9;
    assert WordRunEnd(s, 6) == 9;
    assert WordRunEnd(s, 4) == 4;
    assert WordRunEnd(s, 3) == 4;
    assert WordRunEnd(s, 2) == 4;
    assert WordRunEnd(s, 1) == 4;
    assert SpansFrom(s, 9) == [];
    assert SpansFrom(s, 5) == [Span(5, 9)];
    assert SpansFrom(s, 4) == [Span(5, 9)];
    assert SpansFrom(s, 0) == [Span(0, 4), Span(5, 9)];
    assert s[0..4] == "#foo" && s[5..9] == "#foo";
  }
}
