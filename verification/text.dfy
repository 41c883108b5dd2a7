/**
 The parts of Python's `str` semantics the pipeline relies on: `isspace` (which both the
 regular-expression class `\s` and `str.split()` use), the word class `\w`, `lower`,
 `capitalize`, `strip` and the argument-less `split`.

 Unicode is restricted to ASCII plus the basic Cyrillic block U+0400..U+045F, the letters
 claims are written in: these are the word characters and the cased characters of the model.
 The whitespace set is Python's full `isspace` set.
 */
module Text {

  /** Python's `c.isspace()`: the characters `\s` matches and `str.split()` splits on. */
  predicate IsSpace(c: char) {
    || ('\t' <= c <= '\r')
    || c == ' '
    || (0x1C <= c as int <= 0x1F)
    || c as int == 0x85
    || c as int == 0xA0
    || c as int == 0x1680
    || (0x2000 <= c as int <= 0x200A)
    || c as int == 0x2028
    || c as int == 0x2029
    || c as int == 0x202F
    || c as int == 0x205F
    || c as int == 0x3000
  }

  predicate IsUpper(c: char) {
    ('A' <= c <= 'Z') || (0x400 <= c as int <= 0x42F)
  }

  predicate IsLower(c: char) {
    ('a' <= c <= 'z') || (0x430 <= c as int <= 0x45F)
  }

  /** The regular-expression class `\w`: letters, digits and the underscore. */
  predicate IsWordChar(c: char) {
    IsUpper(c) || IsLower(c) || ('0' <= c <= '9') || c == '_'
  }

  /** Lower-case form of one character; characters without case are unchanged. */
  function LowerChar(c: char): (r: char)
    ensures !IsUpper(r)
    ensures IsWordChar(r) <==> IsWordChar(c)
    ensures IsSpace(r) <==> IsSpace(c)
    ensures IsUpper(c) || r == c
  {
    if 'A' <= c <= 'Z' then (c as int + 32) as char
    else if 0x410 <= c as int <= 0x42F then (c as int + 0x20) as char
    else if 0x400 <= c as int <= 0x40F then (c as int + 0x50) as char
    else c
  }

  /** Upper-case form of one character; characters without case are unchanged. */
  function UpperChar(c: char): (r: char)
    ensures !IsLower(r)
    ensures IsWordChar(r) <==> IsWordChar(c)
    ensures IsLower(c) || r == c
  {
    if 'a' <= c <= 'z' then (c as int - 32) as char
    else if 0x430 <= c as int <= 0x44F then (c as int - 0x20) as char
    else if 0x450 <= c as int <= 0x45F then (c as int - 0x50) as char
    else c
  }

  /** Two characters with the same lower-case form have the same upper-case form. */
  lemma CaseFoldAgrees(a: char, b: char)
    requires LowerChar(a) == LowerChar(b)
    ensures UpperChar(a) == UpperChar(b)
  {
  }

  /** Python's `s.lower()`. */
  function Lower(s: string): (r: string)
    ensures |r| == |s|
    ensures forall i :: 0 <= i < |s| ==> r[i] == LowerChar(s[i])
  {
    seq(|s|, i requires 0 <= i < |s| => LowerChar(s[i]))
  }

  lemma LowerConcat(a: string, b: string)
    ensures Lower(a + b) == Lower(a) + Lower(b)
  {
  }

  /** Python's `s.capitalize()`: the first character upper-cased, every other one lower-cased. */
  function Capitalize(s: string): (r: string)
    ensures |r| == |s|
    ensures |s| > 0 ==> r[0] == UpperChar(s[0])
    ensures forall i :: 0 < i < |s| ==> r[i] == LowerChar(s[i])
  {
    if s == [] then [] else [UpperChar(s[0])] + Lower(s[1..])
  }

  /**
   `capitalize` only looks at the case-insensitive form of its argument: two strings
   that agree once lower-cased capitalise to the same string.
   */
  lemma CapitalizeIgnoresCase(a: string, b: string)
    requires Lower(a) == Lower(b)
    ensures Capitalize(a) == Capitalize(b)
  {
    if |a| > 0 {
      assert LowerChar(a[0]) == Lower(a)[0] == Lower(b)[0] == LowerChar(b[0]);
      CaseFoldAgrees(a[0], b[0]);
      forall i | 0 < i < |a|
        ensures Capitalize(a)[i] == Capitalize(b)[i]
      {
        assert LowerChar(a[i]) == Lower(a)[i] == Lower(b)[i] == LowerChar(b[i]);
      }
    }
  }

  /** The two spellings of a sentiment label the service may use both capitalise to "Positive". */
  lemma CapitalizePositive()
    ensures Capitalize("positive") == "Positive"
    ensures Capitalize("POSITIVE") == "Positive"
  {
    CapitalizeLowerPositive();
    assert Lower("POSITIVE") == "positive";
    CapitalizeIgnoresCase("POSITIVE", "positive");
  }

  lemma CapitalizeLowerPositive()
    ensures Capitalize("positive") == "Positive"
    ensures Lower("positive") == "positive"
  {
    LowerKeepsLower("positive");
    LowerKeepsLower("ositive");
    assert "positive"[1..] == "ositive";
  }

  /** A text without upper-case characters is its own lower-case form. */
  lemma LowerKeepsLower(s: string)
    requires forall i :: 0 <= i < |s| ==> !IsUpper(s[i])
    ensures Lower(s) == s
  {
  }

  /** Drops the leading whitespace of `s`. */
  function TrimStart(s: string): (r: string)
    ensures |r| <= |s| && r == s[|s| - |r|..]
    ensures forall k :: 0 <= k < |s| - |r| ==> IsSpace(s[k])
    ensures |r| > 0 ==> !IsSpace(r[0])
    decreases |s|
  {
    if |s| > 0 && IsSpace(s[0]) then TrimStart(s[1..]) else s
  }

  /** Drops the trailing whitespace of `s`. */
  function TrimEnd(s: string): (r: string)
    ensures |r| <= |s| && r == s[..|r|]
    ensures forall k :: |r| <= k < |s| ==> IsSpace(s[k])
    ensures |r| > 0 ==> !IsSpace(r[|r| - 1])
    decreases |s|
  {
    if |s| > 0 && IsSpace(s[|s| - 1]) then TrimEnd(s[..|s| - 1]) else s
  }

  /** Python's argument-less `s.strip()`. */
  function Strip(s: string): (r: string)
    ensures |r| > 0 ==> !IsSpace(r[0]) && !IsSpace(r[|r| - 1])
    ensures |r| <= |s|
  {
    TrimEnd(TrimStart(s))
  }

  predicate AllSpace(s: string) {
    forall k :: 0 <= k < |s| ==> IsSpace(s[k])
  }

  /** Whitespace around a core that neither starts nor ends with whitespace is exactly what `strip` removes. */
  lemma {:induction false} StripPadded(pre: string, core: string, post: string)
    requires AllSpace(pre) && AllSpace(post)
    requires |core| > 0 ==> !IsSpace(core[0]) && !IsSpace(core[|core| - 1])
    ensures Strip(pre + core + post) == core
  {
    if core == [] {
      assert pre + core + post == pre + post;
      TrimStartAllSpace(pre + post);
    } else {
      assert pre + core + post == pre + (core + post);
      TrimStartPadded(pre, core + post);
      TrimEndPadded(core, post);
    }
  }

  lemma {:induction false} TrimStartAllSpace(s: string)
    requires AllSpace(s)
    ensures TrimStart(s) == []
    decreases |s|
  {
    if |s| > 0 {
      TrimStartAllSpace(s[1..]);
    }
  }

  lemma {:induction false} TrimStartPadded(pre: string, rest: string)
    requires AllSpace(pre)
    requires |rest| > 0 ==> !IsSpace(rest[0])
    ensures TrimStart(pre + rest) == rest
    decreases |pre|
  {
    if |pre| > 0 {
      assert (pre + rest)[1..] == pre[1..] + rest;
      TrimStartPadded(pre[1..], rest);
    } else {
      assert pre + rest == rest;
    }
  }

  lemma {:induction false} TrimEndPadded(core: string, post: string)
    requires AllSpace(post)
    requires |core| > 0 ==> !IsSpace(core[|core| - 1])
    ensures TrimEnd(core + post) == core
    decreases |post|
  {
    if |post| > 0 {
      var s := core + post;
      assert s[..|s| - 1] == core + post[..|post| - 1];
      TrimEndPadded(core, post[..|post| - 1]);
    } else {
      assert core + post == core;
    }
  }

  /** The pending word of a split, as a list of at most one token. */
  function Flush(word: string): seq<string> {
    if word == [] then [] else [word]
  }

  predicate NoSpace(w: string) {
    forall c :: c in w ==> !IsSpace(c)
  }

  /**
   Splits `word + s` at runs of whitespace, where `word` is the part of the current
   token already read; empty tokens are dropped.
   */
  function Scan(s: string, word: string): (r: seq<string>)
    requires NoSpace(word)
    ensures forall w :: w in r ==> |w| > 0 && NoSpace(w)
    ensures forall w, c :: w in r && c in w ==> c in word + s
    decreases |s|
  {
    if s == [] then Flush(word)
    else if IsSpace(s[0]) then
      assert word + s == word + [s[0]] + s[1..];
      Flush(word) + Scan(s[1..], [])
    else
      assert (word + [s[0]]) + s[1..] == word + s;
      Scan(s[1..], word + [s[0]])
  }

  /** Python's argument-less `s.split()`. */
  function Split(s: string): (r: seq<string>)
    ensures forall w :: w in r ==> |w| > 0 && NoSpace(w)
    ensures forall w, c :: w in r && c in w ==> c in s
  {
    Scan(s, [])
  }

  /** A run of non-whitespace characters is read into the pending word and flushed as one token. */
  lemma {:induction false} ScanWord(s: string, word: string)
    requires NoSpace(word) && NoSpace(s)
    ensures Scan(s, word) == Flush(word + s)
    decreases |s|
  {
    if s == [] {
      assert word + s == word;
    } else {
      assert s[0] in s;
      assert forall c :: c in s[1..] ==> c in s;
      assert (word + [s[0]]) + s[1..] == word + s;
      ScanWord(s[1..], word + [s[0]]);
    }
  }

  /** A non-empty text without whitespace splits into itself alone. */
  lemma SplitWord(w: string)
    requires |w| > 0 && NoSpace(w)
    ensures Split(w) == [w]
  {
    ScanWord(w, []);
    assert [] + w == w;
  }

  /** Splitting text joined by a whitespace character splits each side on its own. */
  lemma {:induction false} ScanJoin(a: string, sep: char, b: string, word: string)
    requires IsSpace(sep) && NoSpace(word)
    ensures Scan(a + [sep] + b, word) == Scan(a, word) + Scan(b, [])
    decreases |a|
  {
    if a == [] {
      ScanSeparator(sep, b, word);
      assert a + [sep] + b == [sep] + b;
    } else if IsSpace(a[0]) {
      calc {
        Scan(a + [sep] + b, word);
        { ScanJoinAtSpace(a, sep, b, word); }
        Flush(word) + Scan(a[1..] + [sep] + b, []);
        { ScanJoin(a[1..], sep, b, []); }
        Flush(word) + (Scan(a[1..], []) + Scan(b, []));
        (Flush(word) + Scan(a[1..], [])) + Scan(b, []);
        { ScanJoinAtSpace(a, sep, b, word); }
        Scan(a, word) + Scan(b, []);
      }
    } else {
      calc {
        Scan(a + [sep] + b, word);
        { ScanJoinAtWordChar(a, sep, b, word); }
        Scan(a[1..] + [sep] + b, word + [a[0]]);
        { ScanJoinAtWordChar(a, sep, b, word);
          ScanJoin(a[1..], sep, b, word + [a[0]]); }
        Scan(a[1..], word + [a[0]]) + Scan(b, []);
        { ScanJoinAtWordChar(a, sep, b, word); }
        Scan(a, word) + Scan(b, []);
      }
    }
  }

  /** One whitespace step of `ScanJoin`, on the joined text and on its left part alike. */
  lemma ScanJoinAtSpace(a: string, sep: char, b: string, word: string)
    requires |a| > 0 && IsSpace(a[0]) && NoSpace(word)
    ensures Scan(a + [sep] + b, word) == Flush(word) + Scan(a[1..] + [sep] + b, [])
    ensures Scan(a, word) == Flush(word) + Scan(a[1..], [])
  {
    var s := a + [sep] + b;
    assert s[0] == a[0];
    assert s[1..] == a[1..] + [sep] + b;
    ScanAtSpace(s, word);
    ScanAtSpace(a, word);
  }

  /** One word-character step of `ScanJoin`, on the joined text and on its left part alike. */
  lemma ScanJoinAtWordChar(a: string, sep: char, b: string, word: string)
    requires |a| > 0 && !IsSpace(a[0]) && NoSpace(word)
    ensures NoSpace(word + [a[0]])
    ensures Scan(a + [sep] + b, word) == Scan(a[1..] + [sep] + b, word + [a[0]])
    ensures Scan(a, word) == Scan(a[1..], word + [a[0]])
  {
    var s := a + [sep] + b;
    assert s[0] == a[0];
    assert s[1..] == a[1..] + [sep] + b;
    ScanAtWordChar(s, word);
    ScanAtWordChar(a, word);
  }

  lemma ScanSeparator(sep: char, b: string, word: string)
    requires IsSpace(sep) && NoSpace(word)
    ensures Scan([sep] + b, word) == Scan([], word) + Scan(b, [])
  {
    assert ([sep] + b)[1..] == b;
  }

  lemma ScanAtSpace(s: string, word: string)
    requires |s| > 0 && IsSpace(s[0]) && NoSpace(word)
    ensures Scan(s, word) == Flush(word) + Scan(s[1..], [])
  {
  }

  lemma ScanAtWordChar(s: string, word: string)
    requires |s| > 0 && !IsSpace(s[0]) && NoSpace(word)
    ensures NoSpace(word + [s[0]])
    ensures Scan(s, word) == Scan(s[1..], word + [s[0]])
  {
  }

  lemma SplitJoin(a: string, sep: char, b: string)
    requires IsSpace(sep)
    ensures Split(a + [sep] + b) == Split(a) + Split(b)
  {
    ScanJoin(a, sep, b, []);
  }
}
