/**
 The functions of Go's strings package that the text transformations use: Split and Join on a one-character
 separator, and Fields on Unicode white space.  A character is a code point; the length of a Go string is
 the number of bytes of its UTF-8 form.
 */
module Text {
  import opened Collections

  // ---------------------------------------------------------------- split and join

  /** The length of the longest prefix without the separator. */
  function Until(s: string, sep: char): (n: nat)
    ensures n <= |s| && sep !in s[..n] && (n < |s| ==> s[n] == sep)
  {
    if s == "" || s[0] == sep then 0
    else
      var n := 1 + Until(s[1..], sep);
      assert s[..n] == [s[0]] + s[1..][..n - 1];
      n
  }

  /** strings.Split: never empty, and no part contains the separator. */
  function Split(s: string, sep: char): (parts: seq<string>)
    ensures parts != [] && forall p | p in parts :: sep !in p
    decreases |s|
  {
    var n := Until(s, sep);
    if n == |s| then [s] else [s[..n]] + Split(s[n + 1..], sep)
  }

  function Join(parts: seq<string>, sep: char): string {
    if parts == [] then ""
    else if |parts| == 1 then parts[0]
    else parts[0] + [sep] + Join(parts[1..], sep)
  }

  lemma {:induction false} UntilFollowed(head: string, sep: char, tail: string)
    requires sep !in head && (tail == "" || tail[0] == sep)
    ensures Until(head + tail, sep) == |head|
  {
    if head == "" {
      assert head + tail == tail;
    } else {
      assert (head + tail)[1..] == head[1..] + tail;
      UntilFollowed(head[1..], sep, tail);
    }
  }

  /** Splitting what was joined gives the parts back, if none of them contains the separator. */
  lemma {:induction false} SplitJoined(parts: seq<string>, sep: char)
    requires parts != [] && forall p | p in parts :: sep !in p
    ensures Split(Join(parts, sep), sep) == parts
  {
    var head := parts[0];
    assert sep !in head;
    if |parts| == 1 {
      UntilFollowed(head, sep, "");
      assert head + "" == head;
    } else {
      var rest := Join(parts[1..], sep);
      UntilFollowed(head, sep, [sep] + rest);
      SplitJoined(parts[1..], sep);
      var whole := head + [sep] + rest;
      assert whole == head + ([sep] + rest);
      assert whole[..|head|] == head && whole[|head| + 1..] == rest;
    }
  }

  lemma JoinCons(head: string, parts: seq<string>, sep: char)
    requires parts != []
    ensures Join([head] + parts, sep) == head + [sep] + Join(parts, sep)
  {
    assert ([head] + parts)[1..] == parts;
  }

  /** Joining what was split gives the string back. */
  lemma {:induction false} JoinSplit(s: string, sep: char)
    ensures Join(Split(s, sep), sep) == s
    decreases |s|
  {
    var n := Until(s, sep);
    if n < |s| {
      JoinSplit(s[n + 1..], sep);
      JoinCons(s[..n], Split(s[n + 1..], sep), sep);
      CutAt(s, n);
    }
  }

  // ---------------------------------------------------------------- lengths in bytes

  function Width(c: char): nat {
    if c < '\U{80}' then 1 else if c < '\U{800}' then 2 else if c < '\U{10000}' then 3 else 4
  }

  /** Go's len(s). */
  function Bytes(s: string): (n: nat)
    ensures |s| <= n
  {
    if s == "" then 0 else Width(s[0]) + Bytes(s[1..])
  }

  lemma {:induction false} BytesJoined(s: string, t: string)
    ensures Bytes(s + t) == Bytes(s) + Bytes(t)
  {
    if s == "" {
      assert s + t == t;
    } else {
      assert (s + t)[1..] == s[1..] + t;
      BytesJoined(s[1..], t);
    }
  }

  function TotalBytes(parts: seq<string>): nat {
    if parts == [] then 0 else Bytes(parts[0]) + TotalBytes(parts[1..])
  }

  /** The bytes of joined parts: those of the parts and of the separators between them. */
  lemma {:induction false} JoinedBytes(parts: seq<string>, sep: char)
    requires Width(sep) == 1
    ensures Bytes(Join(parts, sep)) == TotalBytes(parts) + (if parts == [] then 0 else |parts| - 1)
  {
    if |parts| > 1 {
      JoinedBytes(parts[1..], sep);
      BytesJoined(parts[0] + [sep], Join(parts[1..], sep));
      BytesJoined(parts[0], [sep]);
      assert Bytes([sep]) == 1 by { assert [sep][1..] == ""; }
    } else if |parts| == 1 {
      assert TotalBytes(parts[1..]) == 0;
    }
  }

  lemma {:induction false} TotalBytesAppended(parts: seq<string>, p: string)
    ensures TotalBytes(parts + [p]) == TotalBytes(parts) + Bytes(p)
  {
    if parts == [] {
      assert ([p])[1..] == [];
    } else {
      assert (parts + [p])[1..] == parts[1..] + [p];
      TotalBytesAppended(parts[1..], p);
    }
  }

  // ---------------------------------------------------------------- fields

  /** unicode.IsSpace. */
  predicate IsSpace(c: char) {
    || '\t' <= c <= '\r' || c == ' ' || c == '\U{85}' || c == '\U{A0}' || c == '\U{1680}'
    || '\U{2000}' <= c <= '\U{200A}' || c == '\U{2028}' || c == '\U{2029}' || c == '\U{202F}' || c == '\U{205F}'
    || c == '\U{3000}'
  }

  /** Not empty and without white space. */
  predicate IsWord(w: string) { w != "" && forall c | c in w :: !IsSpace(c) }

  function WordLength(s: string): (n: nat)
    ensures n <= |s| && (forall c | c in s[..n] :: !IsSpace(c)) && (n < |s| ==> IsSpace(s[n]))
  {
    if s == "" || IsSpace(s[0]) then 0
    else
      var n := 1 + WordLength(s[1..]);
      assert s[..n] == [s[0]] + s[1..][..n - 1];
      n
  }

  function Fields(s: string): (words: seq<string>)
    ensures forall w | w in words :: IsWord(w)
    decreases |s|
  {
    if s == "" then []
    else if IsSpace(s[0]) then Fields(s[1..])
    else
      var n := WordLength(s);
      [s[..n]] + Fields(s[n..])
  }

  lemma {:induction false} FieldsAreFromText(s: string)
    ensures forall w, c | w in Fields(s) && c in w :: c in s
    decreases |s|
  {
    if s != "" {
      if IsSpace(s[0]) { FieldsAreFromText(s[1..]); } else { FieldsAreFromText(s[WordLength(s)..]); }
    }
  }

  lemma {:induction false} WordLengthFollowed(w: string, tail: string)
    requires (forall c | c in w :: !IsSpace(c)) && (tail == "" || IsSpace(tail[0]))
    ensures WordLength(w + tail) == |w|
  {
    if w == "" {
      assert w + tail == tail;
    } else {
      assert w[0] in w;
      assert (w + tail)[1..] == w[1..] + tail;
      WordLengthFollowed(w[1..], tail);
    }
  }

  /** The fields of words joined by spaces are those words. */
  lemma {:induction false} FieldsJoined(words: seq<string>)
    requires forall w | w in words :: IsWord(w)
    ensures Fields(Join(words, ' ')) == words
  {
    if words != [] {
      var w := words[0];
      assert IsWord(w) && w[0] in w;
      if |words| == 1 {
        WordLengthFollowed(w, "");
        assert w + "" == w && w[..|w|] == w && Fields(w[|w|..]) == [];
      } else {
        var rest := Join(words[1..], ' ');
        var whole := w + " " + rest;
        WordLengthFollowed(w, " " + rest);
        assert whole == w + (" " + rest);
        FieldsJoined(words[1..]);
        var tail := whole[|w|..];
        assert whole[..|w|] == w && tail[0] == ' ' && tail[1..] == rest;
        assert Fields(tail) == Fields(rest);
        assert Join(words, ' ') == whole;
      }
    }
  }
}
