/** Character classes and the whitespace trim that the Mongoose `trim: true`
    setter applies (JavaScript's String.prototype.trim). */
module Text {

  type String = seq<char>

  /** The ECMAScript WhiteSpace and LineTerminator code points: exactly what
      String.prototype.trim strips from both ends. */
  predicate IsSpace(c: char) {
    || c == '\t' || c == '\n' || c == '\U{000B}' || c == '\U{000C}' || c == '\r' || c == ' '
    || c == '\U{00A0}' || c == '\U{1680}' || ('\U{2000}' <= c <= '\U{200A}')
    || c == '\U{2028}' || c == '\U{2029}' || c == '\U{202F}' || c == '\U{205F}'
    || c == '\U{3000}' || c == '\U{FEFF}'
  }

  /** The class `\w` of a JavaScript regular expression without the `u` flag:
      [A-Za-z0-9_]. */
  predicate IsWordChar(c: char) {
    ('A' <= c <= 'Z') || ('a' <= c <= 'z') || ('0' <= c <= '9') || c == '_'
  }

  /** Neither end of `s` is whitespace: the shape of every trimmed string. */
  predicate NoOuterSpace(s: String) {
    |s| == 0 || (!IsSpace(s[0]) && !IsSpace(s[|s| - 1]))
  }

  /** `s` without its leading whitespace: the suffix that starts at the first
      non-space character. */
  function TrimStart(s: String): (r: String)
    ensures |r| <= |s| && r == s[|s| - |r|..]
    ensures |r| == 0 || !IsSpace(r[0])
    ensures forall k :: 0 <= k < |s| - |r| ==> IsSpace(s[k])
    decreases |s|
  {
    if |s| == 0 || !IsSpace(s[0]) then s else TrimStart(s[1..])
  }

  /** `s` without its trailing whitespace: the prefix that ends at the last
      non-space character. */
  function TrimEnd(s: String): (r: String)
    ensures |r| <= |s| && r == s[..|r|]
    ensures |r| == 0 || !IsSpace(r[|r| - 1])
    ensures forall k :: |r| <= k < |s| ==> IsSpace(s[k])
    decreases |s|
  {
    if |s| > 0 && IsSpace(s[|s| - 1]) then TrimEnd(s[..|s| - 1]) else s
  }

  /** String.prototype.trim. The result has no whitespace at either end; it is
      `s` itself exactly when `s` already had none; and it is empty exactly when
      `s` was all whitespace (which the `required` validator then rejects). */
  function Trim(s: String): (r: String)
    ensures NoOuterSpace(r)
    ensures NoOuterSpace(s) <==> r == s
    ensures |r| == 0 <==> forall k :: 0 <= k < |s| ==> IsSpace(s[k])
    ensures exists a, b :: 0 <= a <= b <= |s| && r == s[a..b]
                           && (forall k :: 0 <= k < a ==> IsSpace(s[k]))
                           && (forall k :: b <= k < |s| ==> IsSpace(s[k]))
  {
    var front := TrimStart(s);
    var r := TrimEnd(front);
    StrippedSlice(s, front, r);
    r
  }

  /** A prefix `r` of a suffix `front` of `s`, where the suffix drops only
      whitespace and starts with none, and the prefix drops only whitespace and
      ends with none, is the slice of `s` with the outer whitespace cut away. */
  lemma {:induction false} StrippedSlice(s: String, front: String, r: String)
    requires |front| <= |s| && front == s[|s| - |front|..]
    requires |front| == 0 || !IsSpace(front[0])
    requires forall k :: 0 <= k < |s| - |front| ==> IsSpace(s[k])
    requires |r| <= |front| && r == front[..|r|]
    requires |r| == 0 || !IsSpace(r[|r| - 1])
    requires forall k :: |r| <= k < |front| ==> IsSpace(front[k])
    ensures NoOuterSpace(r)
    ensures NoOuterSpace(s) <==> r == s
    ensures |r| == 0 <==> forall k :: 0 <= k < |s| ==> IsSpace(s[k])
    ensures exists a, b :: 0 <= a <= b <= |s| && r == s[a..b]
                           && (forall k :: 0 <= k < a ==> IsSpace(s[k]))
                           && (forall k :: b <= k < |s| ==> IsSpace(s[k]))
  {
    var a := |s| - |front|;
    var b := a + |r|;
    assert r == s[a..b];
    forall k | b <= k < |s| ensures IsSpace(s[k]) {
      assert s[k] == front[k - a];
    }
    if |r| > 0 {
      assert r[0] == front[0];
    }
    if |s| > 0 {
      assert a > 0 ==> IsSpace(s[0]);
      assert b < |s| ==> IsSpace(s[|s| - 1]);
    }
  }
}
