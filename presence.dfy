/**
  Rails' presence test on strings. A string is blank when it is empty or
  holds only characters of the Unicode White_Space property (Ruby's
  `[[:space:]]`); `present?` is its negation. A parameter the request does
  not carry is modelled as the empty string, which is blank.
 */
module Presence {

  predicate IsWhitespace(c: char)
  {
    || ('\U{9}' <= c <= '\U{D}')
    || c == ' '
    || c == '\U{85}'
    || c == '\U{A0}'
    || c == '\U{1680}'
    || ('\U{2000}' <= c <= '\U{200A}')
    || c == '\U{2028}'
    || c == '\U{2029}'
    || c == '\U{202F}'
    || c == '\U{205F}'
    || c == '\U{3000}'
  }

  predicate IsBlank(s: string)
  {
    forall i :: 0 <= i < |s| ==> IsWhitespace(s[i])
  }

  predicate IsPresent(s: string)
  {
    !IsBlank(s)
  }

  /**
    White space around a value does not change whether it is present: a
    parameter such as " txn_1 " passes the presence validation exactly when
    "txn_1" does, and one made only of spaces and newlines never does.
   */
  lemma PresenceIgnoresPadding(before: string, s: string, after: string)
    requires IsBlank(before) && IsBlank(after)
    ensures IsPresent(before + s + after) <==> IsPresent(s)
  {
    var padded := before + s + after;
    if IsPresent(s) {
      var i :| 0 <= i < |s| && !IsWhitespace(s[i]);
      assert padded[|before| + i] == s[i];
    } else {
      forall j | 0 <= j < |padded|
        ensures IsWhitespace(padded[j])
      {
        if j < |before| {
          assert padded[j] == before[j];
        } else if j < |before| + |s| {
          assert padded[j] == s[j - |before|];
        } else {
          assert padded[j] == after[j - |before| - |s|];
        }
      }
    }
  }

  /** A string whose first character is not white space is present. */
  lemma PresentByFirst(s: string)
    requires |s| > 0 && !IsWhitespace(s[0])
    ensures IsPresent(s)
  {
    assert !IsWhitespace(s[0]);
  }
}
