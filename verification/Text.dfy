/** Plain facts about strings: containment and splitting. */
module Text {

  datatype Option<+T> = None | Some(value: T)

  predicate IsSpace(c: char) {
    c == ' ' || c == '\t' || c == '\r' || c == '\n' || c == 11 as char || c == 12 as char
  }

  /** The blank and the five control characters from tab to carriage return. */
  lemma SpaceIff(c: char)
    ensures IsSpace(c) <==> c as int == 32 || 9 <= c as int <= 13
  {
  }

  /** `needle` occurs in `hay` at position `i`. */
  predicate OccursAt(hay: string, needle: string, i: nat) {
    i + |needle| <= |hay| && hay[i..i + |needle|] == needle
  }

  predicate Contains(hay: string, needle: string) {
    exists i | 0 <= i <= |hay| :: OccursAt(hay, needle, i)
  }

  predicate EndsWith(s: string, t: string) {
    |t| <= |s| && s[|s| - |t|..] == t
  }

  lemma ContainsAppended(a: string, b: string, c: string)
    ensures Contains(a + b + c, b)
  {
    assert (a + b + c)[|a|..|a| + |b|] == b;
    assert OccursAt(a + b + c, b, |a|);
  }

  lemma ContainsSelf(s: string)
    ensures Contains(s, s)
  {
    assert s[0..0 + |s|] == s;
    assert OccursAt(s, s, 0);
  }

  lemma OccurrenceChars(hay: string, needle: string, i: nat, c: char)
    requires OccursAt(hay, needle, i) && c in needle
    ensures c in hay
  {
    assert needle <= hay[i..];
  }

  /** Something is contained exactly when the text is it with something before and something after. */
  lemma ContainsIff(hay: string, needle: string)
    ensures Contains(hay, needle) <==> exists pre, post :: hay == pre + needle + post
  {
    if i :| 0 <= i <= |hay| && OccursAt(hay, needle, i) {
      assert hay == hay[..i] + needle + hay[i + |needle|..];
    }
    if pre, post :| hay == pre + needle + post {
      ContainsAppended(pre, needle, post);
    }
  }

  /** An occurrence does not reach over a character that the needle lacks. */
  lemma OutsideOccurrence(hay: string, needle: string, i: nat, k: nat)
    requires OccursAt(hay, needle, i) && k < |hay| && hay[k] !in needle
    ensures k < i || i + |needle| <= k
  {
    assert forall j | i <= j < i + |needle| :: hay[j] == hay[i..i + |needle|][j - i];
  }

  /** A needle holding a character that the hay lacks does not occur in it. */
  lemma MissingChar(hay: string, needle: string, c: char)
    requires c in needle && c !in hay
    ensures !Contains(hay, needle)
  {
    if i :| 0 <= i <= |hay| && OccursAt(hay, needle, i) {
      OccurrenceChars(hay, needle, i, c);
    }
  }

  // ── Splitting ────────────────────────────────────────────────────────────

  function Split(s: string, sep: char): (fields: seq<string>)
    ensures |fields| > 0
  {
    if s == "" then [""]
    else if s[0] == sep then [""] + Split(s[1..], sep)
    else
      var more := Split(s[1..], sep);
      [[s[0]] + more[0]] + more[1..]
  }

  function Join(fields: seq<string>, sep: char): (s: string) {
    if fields == [] then ""
    else if |fields| == 1 then fields[0]
    else fields[0] + [sep] + Join(fields[1..], sep)
  }

  /** Joining what a split returns gives the text back. */
  lemma {:induction false} JoinSplit(s: string, sep: char)
    ensures Join(Split(s, sep), sep) == s
  {
    if s != "" {
      var more := Split(s[1..], sep);
      JoinSplit(s[1..], sep);
      assert s == [s[0]] + s[1..];
      if s[0] == sep {
        assert Split(s, sep)[1..] == more;
      } else {
        assert Split(s, sep)[1..] == more[1..];
        assert |more| > 1 ==> Join(more, sep) == more[0] + [sep] + Join(more[1..], sep);
      }
    }
  }

  lemma {:induction false} SplitPlain(s: string, sep: char)
    requires sep !in s
    ensures Split(s, sep) == [s]
  {
    if s != "" {
      SplitPlain(s[1..], sep);
      assert s == [s[0]] + s[1..];
    }
  }

  lemma {:induction false} SplitFirst(s: string, rest: string, sep: char)
    requires sep !in s
    ensures Split(s + [sep] + rest, sep) == [s] + Split(rest, sep)
    decreases |s|
  {
    var whole := s + [sep] + rest;
    if s == "" {
      assert whole[0] == sep && whole[1..] == rest;
    } else {
      assert whole[0] == s[0] && whole[1..] == s[1..] + [sep] + rest;
      SplitFirst(s[1..], rest, sep);
      assert s == [s[0]] + s[1..];
      assert ([s[1..]] + Split(rest, sep))[1..] == Split(rest, sep);
    }
  }

  /** Splitting what was joined gives the parts back. */
  lemma {:induction false} SplitJoin(fields: seq<string>, sep: char)
    requires fields != [] && forall f | f in fields :: sep !in f
    ensures Split(Join(fields, sep), sep) == fields
    decreases |fields|
  {
    if |fields| == 1 {
      SplitPlain(fields[0], sep);
    } else {
      SplitJoin(fields[1..], sep);
      SplitFirst(fields[0], Join(fields[1..], sep), sep);
      assert fields == [fields[0]] + fields[1..];
    }
  }

  // ── Words ────────────────────────────────────────────────────────────────

  /** The leading characters that are no spaces. */
  function Word(s: string): (w: string)
    ensures w <= s && (s != "" && !IsSpace(s[0]) ==> w != "")
  {
    if s == "" || IsSpace(s[0]) then "" else [s[0]] + Word(s[1..])
  }

  /** strings.Fields */
  function Fields(s: string): (fs: seq<string>)
    ensures forall f | f in fs :: f != ""
    decreases |s|
  {
    if s == "" then []
    else if IsSpace(s[0]) then Fields(s[1..])
    else [Word(s)] + Fields(s[|Word(s)|..])
  }

  predicate Printable(s: string) {
    s != "" && forall c | c in s :: '!' <= c <= '~'
  }

  lemma {:induction false} WordEnds(w: string, rest: string)
    requires Printable(w) && (rest == "" || rest[0] == ' ' || rest[0] == '\t')
    ensures Word(w + rest) == w
    decreases |w|
  {
    var s := w + rest;
    assert w[0] in w && s[0] == w[0] && s[1..] == w[1..] + rest;
    if |w| > 1 {
      assert forall c | c in w[1..] :: c in w;
      WordEnds(w[1..], rest);
    } else {
      assert s[1..] == rest;
    }
    assert w == [w[0]] + w[1..];
  }

  lemma FieldsOfWord(w: string)
    requires Printable(w)
    ensures Fields(w) == [w]
  {
    assert w[0] in w;
    WordEnds(w, "");
    assert w + "" == w && w[|w|..] == "";
  }

  lemma FieldsStep(w: string, sep: char, rest: string)
    requires Printable(w) && (sep == ' ' || sep == '\t')
    ensures Fields(w + ([sep] + rest)) == [w] + Fields(rest)
  {
    var tail := [sep] + rest;
    var s := w + tail;
    assert w[0] in w && s[0] == w[0];
    WordEnds(w, tail);
    assert s[|w|..] == tail && tail[0] == sep && tail[1..] == rest;
    assert Fields(tail) == Fields(rest);
  }

  /** Words with a tab or a space between them are read as these words. */
  lemma {:induction false} FieldsOfJoined(words: seq<string>, sep: char)
    requires words != [] && (sep == ' ' || sep == '\t') && forall w | w in words :: Printable(w)
    ensures Fields(Join(words, sep)) == words
    decreases |words|
  {
    assert words[0] in words;
    if |words| == 1 {
      FieldsOfWord(words[0]);
    } else {
      var rest := Join(words[1..], sep);
      assert Join(words, sep) == words[0] + ([sep] + rest);
      FieldsStep(words[0], sep, rest);
      FieldsOfJoined(words[1..], sep);
      assert words == [words[0]] + words[1..];
    }
  }
}
