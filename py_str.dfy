/**
 The few pieces of Python's `str` behaviour the dependency guard relies on:
 truthiness of an optional string, `s.split()[0]`, `s.split(".")[0]` and
 the substring test `t in s`.
 */
module PyStr {
  import opened Wrappers

  /** A Python value that is `None` or a string is truthy when it is a non-empty string. */
  predicate Truthy(o: Option<string>) {
    o.Some? && o.value != ""
  }

  /** Python's truth test on `None`-or-string values: `None` and `""` are falsy, every other string is truthy. */
  lemma PythonTruthiness(s: string)
    ensures !Truthy(None) && !Truthy(Some(""))
    ensures Truthy(Some(s)) <==> s != ""
    ensures Truthy(Some(" ")) && Truthy(Some("0"))
  {
  }

  /** Python's `a or b` on two values that are each `None` or a string. */
  function Or(a: Option<string>, b: Option<string>): (r: Option<string>)
    ensures Truthy(r) <==> Truthy(a) || Truthy(b)
    ensures Truthy(a) ==> r == a
    ensures !Truthy(a) ==> r == b
  {
    if Truthy(a) then a else b
  }

  /**
   The characters `str.isspace()` accepts, which are the separators of
   `str.split()` without an argument: the ASCII controls 9 to 13 and 28 to 31,
   the space, NEL, NO-BREAK SPACE and the Unicode space separators.
   */
  predicate IsSpace(c: char) {
    || c == ' '
    || '\t' <= c <= '\r'
    || '\U{1c}' <= c <= '\U{1f}'
    || c == '\U{85}'
    || c == '\U{a0}'
    || c == '\U{1680}'
    || '\U{2000}' <= c <= '\U{200a}'
    || c == '\U{2028}'
    || c == '\U{2029}'
    || c == '\U{202f}'
    || c == '\U{205f}'
    || c == '\U{3000}'
  }

  /**
   Sample points of the whitespace set: the ASCII separators and the wide
   Unicode spaces split, while letters, digits, the zero-width space and
   the byte-order mark do not.
   */
  lemma PythonWhitespace()
    ensures IsSpace(' ') && IsSpace('\t') && IsSpace('\n') && IsSpace('\r')
    ensures IsSpace('\U{0b}') && IsSpace('\U{0c}') && IsSpace('\U{1f}')
    ensures IsSpace('\U{85}') && IsSpace('\U{a0}') && IsSpace('\U{2009}') && IsSpace('\U{3000}')
    ensures !IsSpace('a') && !IsSpace('2') && !IsSpace('.') && !IsSpace('(')
    ensures !IsSpace('\U{200b}') && !IsSpace('\U{feff}') && !IsSpace('\U{180e}')
  {
  }

  predicate AllSpace(s: string) {
    forall i :: 0 <= i < |s| ==> IsSpace(s[i])
  }

  predicate NoSpace(s: string) {
    forall i :: 0 <= i < |s| ==> !IsSpace(s[i])
  }

  /** Python's `t in s` for strings: t occurs in s as a contiguous run. */
  predicate Contains(s: string, t: string) {
    t <= s || (s != [] && Contains(s[1..], t))
  }

  /** Whatever surrounds t, the whole contains t. */
  lemma {:induction false} ContainsInfix(a: string, t: string, b: string)
    ensures Contains(a + t + b, t)
  {
    if a == [] {
      assert a + t + b == t + b;
    } else {
      ContainsInfix(a[1..], t, b);
      assert (a + t + b)[1..] == a[1..] + t + b;
    }
  }

  /** How many whitespace characters `s.split()` skips before the first token: the length of `s` minus `s.lstrip()`. */
  function LeadingSpaces(s: string): (n: nat)
    ensures n <= |s|
    ensures forall i :: 0 <= i < n ==> IsSpace(s[i])
    ensures n == |s| || !IsSpace(s[n])
  {
    if s != [] && IsSpace(s[0]) then 1 + LeadingSpaces(s[1..]) else 0
  }

  /** The longest prefix of s that holds no whitespace. */
  function TakeWord(s: string): (r: string)
    ensures r <= s && NoSpace(r)
    ensures |r| == |s| || IsSpace(s[|r|])
  {
    if s == [] || IsSpace(s[0]) then [] else [s[0]] + TakeWord(s[1..])
  }

  /**
   `s.split()[0]`, or None where that expression raises IndexError
   (s is empty or holds only whitespace). The token is non-empty, holds no
   whitespace and occurs in s.
   */
  function FirstToken(s: string): (r: Option<string>)
    ensures r.None? <==> AllSpace(s)
    ensures r.Some? ==> r.value != [] && NoSpace(r.value) && Contains(s, r.value)
  {
    var k := LeadingSpaces(s);
    if k == |s| then
      None
    else
      var word := TakeWord(s[k..]);
      assert s == s[..k] + word + s[k + |word|..];
      ContainsInfix(s[..k], word, s[k + |word|..]);
      Some(word)
  }

  /** Leading whitespace is skipped whole: before `rest`, which does not start with whitespace, exactly the characters of `pre` are skipped. */
  lemma {:induction false} LeadingSpacesOfLayout(pre: string, rest: string)
    requires AllSpace(pre)
    requires rest == [] || !IsSpace(rest[0])
    ensures LeadingSpaces(pre + rest) == |pre|
  {
    if pre == [] {
      assert pre + rest == rest;
    } else {
      assert (pre + rest)[0] == pre[0];
      assert (pre + rest)[1..] == pre[1..] + rest;
      LeadingSpacesOfLayout(pre[1..], rest);
    }
  }

  /** A word is taken whole, up to the whitespace that ends it. */
  lemma {:induction false} TakeWordStopsAtSpace(word: string, post: string)
    requires NoSpace(word)
    requires post == [] || IsSpace(post[0])
    ensures TakeWord(word + post) == word
  {
    if word == [] {
      assert word + post == post;
    } else {
      assert (word + post)[0] == word[0];
      assert (word + post)[1..] == word[1..] + post;
      TakeWordStopsAtSpace(word[1..], post);
    }
  }

  /**
   The first token is determined by the layout of the string: after any run
   of whitespace, the non-empty run of non-whitespace that follows it,
   ended by whitespace or the end of the string.
   */
  lemma FirstTokenOfLayout(pre: string, word: string, post: string)
    requires AllSpace(pre) && word != [] && NoSpace(word)
    requires post == [] || IsSpace(post[0])
    ensures FirstToken(pre + word + post) == Some(word)
  {
    var s := pre + word + post;
    assert s == pre + (word + post);
    LeadingSpacesOfLayout(pre, word + post);
    assert s[|pre|..] == word + post;
    TakeWordStopsAtSpace(word, post);
  }

  /**
   `s.split(".")[0]`: the part of s before its first '.', all of s when it
   holds none (so "" for an empty s or one that starts with '.').
   */
  function FirstSegment(s: string): (r: string)
    ensures r <= s && '.' !in r
    ensures |r| == |s| || s[|r|] == '.'
  {
    if s == [] || s[0] == '.' then [] else [s[0]] + FirstSegment(s[1..])
  }

  /** The segment before the first '.' is unique: a dot-free prefix ended by '.' or the end of s is it. */
  lemma {:induction false} FirstSegmentOfLayout(head: string, tail: string)
    requires '.' !in head
    requires tail == [] || tail[0] == '.'
    ensures FirstSegment(head + tail) == head
  {
    if head == [] {
      assert head + tail == tail;
    } else {
      assert (head + tail)[0] == head[0];
      assert (head + tail)[1..] == head[1..] + tail;
      FirstSegmentOfLayout(head[1..], tail);
    }
  }
}
