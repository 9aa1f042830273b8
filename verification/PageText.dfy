/** Text that the picker takes from a page: `boundedText`, and what it keeps of a value. */
module PageText {
  import opened Prelude
  import opened JsValues
  import opened Protocol

  /** The characters that `\s` matches and `trim` removes. */
  predicate IsSpace(u: Unit) {
    || 0x09 <= u <= 0x0D || u == 0x20 || u == 0xA0 || u == 0x1680 || 0x2000 <= u <= 0x200A
    || u == 0x2028 || u == 0x2029 || u == 0x202F || u == 0x205F || u == 0x3000 || u == 0xFEFF
  }

  /** The characters `[\u0000-\u0008\u000B\u000C\u000E-\u001F\u007F-\u009F]`. */
  predicate IsForbidden(u: Unit) {
    u <= 0x08 || u == 0x0B || u == 0x0C || 0x0E <= u <= 0x1F || 0x7F <= u <= 0x9F
  }

  /** `value.replace(/\s+/g, " ")`; `inRun` says whether a run of spaces has been replaced already. */
  function Collapse(s: JsString, inRun: bool): JsString {
    if s == [] then []
    else if IsSpace(s[0]) then (if inRun then [] else [SPACE]) + Collapse(s[1..], true)
    else [s[0]] + Collapse(s[1..], false)
  }

  function TrimStart(s: JsString): JsString {
    if s != [] && IsSpace(s[0]) then TrimStart(s[1..]) else s
  }

  function TrimEnd(s: JsString): JsString {
    if s != [] && IsSpace(s[|s| - 1]) then TrimEnd(s[..|s| - 1]) else s
  }

  function Trim(s: JsString): JsString {
    TrimEnd(TrimStart(s))
  }

  /** `boundedText`; a missing or empty value gives none. */
  function BoundedText(value: Option<JsString>, maximum: nat): Option<JsString> {
    if value.None? || value.value == [] then None
    else if exists i :: 0 <= i < |value.value| && IsForbidden(value.value[i]) then None
    else
      var normalized := Trim(Collapse(value.value, false));
      if normalized == [] then None else Some(Slice(normalized, maximum))
  }

  lemma {:induction false} CollapseIsClean(s: JsString, inRun: bool)
    requires forall i :: 0 <= i < |s| ==> !IsForbidden(s[i])
    ensures NoControl(Collapse(s, inRun))
  {
    if s != [] { CollapseIsClean(s[1..], IsSpace(s[0])); }
  }

  lemma {:induction false} TrimIsClean(s: JsString)
    requires NoControl(s)
    ensures NoControl(TrimStart(s)) && NoControl(TrimEnd(s))
    decreases |s|
  {
    if s != [] {
      TrimIsClean(s[1..]);
      TrimIsClean(s[..|s| - 1]);
    }
  }

  /** Text that the picker lets through meets the protocol's bounds. */
  lemma BoundedTextIsBounded(value: Option<JsString>, maximum: nat)
    requires maximum > 0
    ensures BoundedText(value, maximum).Some? ==> BoundedString(BoundedText(value, maximum).value, maximum)
  {
    if BoundedText(value, maximum).Some? {
      CollapseIsClean(value.value, false);
      TrimIsClean(Collapse(value.value, false));
      TrimIsClean(TrimStart(Collapse(value.value, false)));
    }
  }

  // ---------------------------------------------------------------- the words of a value

  /** The maximal runs of characters that are no spaces, in order. */
  function Words(s: JsString): (words: seq<JsString>)
    ensures s != [] && !IsSpace(s[0]) ==> words != []
  {
    if s == [] then []
    else if IsSpace(s[0]) then Words(s[1..])
    else
      var rest := Words(s[1..]);
      if |s| == 1 || IsSpace(s[1]) then [[s[0]]] + rest
      else [[s[0]] + rest[0]] + rest[1..]
  }

  /** The words of a value, with one space between them. */
  function Tidied(s: JsString): JsString {
    Join(Words(s), [SPACE])
  }

  /** What is shown of a value: its words, one space apart, up to a limit; nothing if there is none or it is unsafe. */
  ghost function ShownText(value: Option<JsString>, maximum: nat): Option<JsString> {
    if value.None? || (exists u :: u in value.value && IsForbidden(u)) || Words(value.value) == [] then None
    else
      var text := Tidied(value.value);
      Some(text[..Min(|text|, maximum)])
  }

  predicate AllSpaces(s: JsString) {
    forall i :: 0 <= i < |s| ==> IsSpace(s[i])
  }

  predicate IsWord(w: JsString) {
    w != [] && forall i :: 0 <= i < |w| ==> !IsSpace(w[i])
  }

  predicate AllWords(words: seq<JsString>) {
    forall i :: 0 <= i < |words| ==> IsWord(words[i])
  }

  lemma {:induction false} WordsAreWords(s: JsString)
    ensures AllWords(Words(s))
    ensures Words(s) == [] <==> AllSpaces(s)
  {
    if s != [] {
      WordsAreWords(s[1..]);
      assert forall i :: 0 <= i < |s[1..]| ==> s[1..][i] == s[i + 1];
      if AllSpaces(s[1..]) {
        assert forall i :: 1 <= i < |s| ==> s[i] == s[1..][i - 1];
      }
    }
  }

  /** A character before a space, or before nothing, is a word of its own. */
  lemma WordAlone(u: Unit, rest: JsString)
    requires !IsSpace(u) && (rest == [] || IsSpace(rest[0]))
    ensures Words([u] + rest) == [[u]] + Words(rest)
  {
    assert ([u] + rest)[1..] == rest;
  }

  /** A character before another one lengthens its word. */
  lemma WordLonger(u: Unit, rest: JsString)
    requires !IsSpace(u) && rest != [] && !IsSpace(rest[0])
    ensures Words([u] + rest) == [[u] + Words(rest)[0]] + Words(rest)[1..]
  {
    assert ([u] + rest)[1..] == rest;
  }

  /** Gaps and words in turn, beginning and ending with a gap. */
  function Spread(gaps: seq<JsString>, words: seq<JsString>): JsString
    requires |gaps| == |words| + 1
  {
    if words == [] then gaps[0] else gaps[0] + (words[0] + Spread(gaps[1..], words[1..]))
  }

  /** The value is made of words with spaces between, and perhaps around, them. */
  predicate MadeOf(s: JsString, gaps: seq<JsString>, words: seq<JsString>) {
    && |gaps| == |words| + 1 && s == Spread(gaps, words) && AllWords(words)
    && forall i :: 0 <= i < |gaps| ==> AllSpaces(gaps[i]) && (0 < i < |words| ==> gaps[i] != [])
  }

  lemma SpreadBegins(gaps: seq<JsString>, words: seq<JsString>)
    requires |gaps| == |words| + 1 && AllWords(words)
    ensures var s := Spread(gaps, words);
            && (gaps[0] != [] ==> s != [] && s[0] == gaps[0][0])
            && (gaps[0] == [] && words != [] ==> s != [] && words[0] != [] && s[0] == words[0][0])
  {
    if words != [] { assert IsWord(words[0]); }
  }

  lemma MadeOfOneSpaceMore(u: Unit, rest: JsString, gaps: seq<JsString>, words: seq<JsString>)
    requires IsSpace(u) && MadeOf(rest, gaps, words)
    ensures MadeOf([u] + rest, [[u] + gaps[0]] + gaps[1..], words)
  {
    var gaps' := [[u] + gaps[0]] + gaps[1..];
    assert gaps'[1..] == gaps[1..];
    if words != [] {
      var tail := words[0] + Spread(gaps[1..], words[1..]);
      assert [u] + (gaps[0] + tail) == ([u] + gaps[0]) + tail;
    }
    forall i | 0 <= i < |gaps'| ensures AllSpaces(gaps'[i]) && (0 < i < |words| ==> gaps'[i] != []) {
      assert AllSpaces(gaps[i]);
    }
  }

  lemma MadeOfOneWordMore(u: Unit, rest: JsString, gaps: seq<JsString>, words: seq<JsString>)
    requires !IsSpace(u) && (rest == [] || IsSpace(rest[0])) && MadeOf(rest, gaps, words)
    ensures MadeOf([u] + rest, [[]] + gaps, [[u]] + words)
  {
    var (gaps', words') := ([[]] + gaps, [[u]] + words);
    assert gaps'[1..] == gaps && words'[1..] == words;
    assert [] + ([u] + rest) == [u] + rest;
    SpreadBegins(gaps, words);
    if words != [] { assert IsWord(words[0]); }
    forall i | 0 <= i < |gaps'| ensures AllSpaces(gaps'[i]) && (0 < i < |words'| ==> gaps'[i] != []) {
      if i > 0 { assert AllSpaces(gaps[i - 1]); }
    }
  }

  lemma MadeOfLonger(u: Unit, rest: JsString, gaps: seq<JsString>, words: seq<JsString>)
    requires !IsSpace(u) && rest != [] && !IsSpace(rest[0]) && MadeOf(rest, gaps, words)
    ensures words != [] && MadeOf([u] + rest, gaps, [[u] + words[0]] + words[1..])
  {
    SpreadBegins(gaps, words);
    assert AllSpaces(gaps[0]) && gaps[0] == [];
    var words' := [[u] + words[0]] + words[1..];
    assert words'[1..] == words[1..];
    var tail := Spread(gaps[1..], words[1..]);
    assert [u] + ([] + (words[0] + tail)) == [] + (([u] + words[0]) + tail);
    assert IsWord(words[0]);
    assert forall i :: 1 <= i < |words'| ==> words'[i] == words[i];
  }

  /** A value is made of its words. */
  lemma {:induction false} MadeOfWords(s: JsString) returns (gaps: seq<JsString>)
    ensures MadeOf(s, gaps, Words(s))
  {
    if s == [] {
      gaps := [[]];
    } else {
      var (u, rest) := (s[0], s[1..]);
      assert s == [u] + rest;
      gaps := MadeOfWords(rest);
      if IsSpace(u) {
        MadeOfOneSpaceMore(u, rest, gaps, Words(rest));
        gaps := [[u] + gaps[0]] + gaps[1..];
      } else if rest == [] || IsSpace(rest[0]) {
        MadeOfOneWordMore(u, rest, gaps, Words(rest));
        WordAlone(u, rest);
        gaps := [[]] + gaps;
      } else {
        MadeOfLonger(u, rest, gaps, Words(rest));
        WordLonger(u, rest);
      }
    }
  }

  lemma {:induction false} SpacesThenWords(spaces: JsString, rest: JsString)
    requires AllSpaces(spaces)
    ensures Words(spaces + rest) == Words(rest)
  {
    if spaces == [] {
      assert spaces + rest == rest;
    } else {
      SpacesThenWords(spaces[1..], rest);
      assert (spaces + rest)[1..] == spaces[1..] + rest;
    }
  }

  lemma {:induction false} WordThenWords(word: JsString, rest: JsString)
    requires IsWord(word) && (rest == [] || IsSpace(rest[0]))
    ensures Words(word + rest) == [word] + Words(rest)
    decreases |word|
  {
    var (u, more) := (word[0], word[1..]);
    assert word + rest == [u] + (more + rest);
    if more == [] {
      assert more + rest == rest && word == [u];
      WordAlone(u, rest);
    } else {
      WordThenWords(more, rest);
      WordLonger(u, more + rest);
      assert [u] + more == word;
    }
  }

  /** A value is made of no other words. */
  lemma {:induction false} MadeOfNoOthers(s: JsString, gaps: seq<JsString>, words: seq<JsString>)
    requires MadeOf(s, gaps, words)
    ensures words == Words(s)
    decreases |words|
  {
    assert AllSpaces(gaps[0]);
    if words == [] {
      SpacesThenWords(s, []);
      assert s + [] == s;
    } else {
      var rest := Spread(gaps[1..], words[1..]);
      assert forall i :: 0 <= i < |gaps[1..]| ==> gaps[1..][i] == gaps[i + 1];
      MadeOfNoOthers(rest, gaps[1..], words[1..]);
      assert AllSpaces(gaps[1]) && (|words| > 1 ==> gaps[1] != []);
      SpreadBegins(gaps[1..], words[1..]);
      assert IsWord(words[0]);
      WordThenWords(words[0], rest);
      SpacesThenWords(gaps[0], words[0] + rest);
    }
  }

  /** The words of a value are its maximal runs of characters that are no spaces, in order. */
  lemma WordsExactly(s: JsString, words: seq<JsString>)
    ensures words == Words(s) <==> exists gaps :: MadeOf(s, gaps, words)
  {
    if words == Words(s) {
      var gaps := MadeOfWords(s);
      assert MadeOf(s, gaps, words);
    }
    if gaps :| MadeOf(s, gaps, words) { MadeOfNoOthers(s, gaps, words); }
  }

  // ---------------------------------------------------------------- tidied text

  lemma JoinOneMore(word: JsString, rest: seq<JsString>)
    ensures Join([word] + rest, [SPACE]) == word + (if rest == [] then [] else [SPACE] + Join(rest, [SPACE]))
  {
    if rest == [] {
      assert [word] + rest == [word] && word + [] == word;
    } else {
      assert ([word] + rest)[1..] == rest;
      assert word + [SPACE] + Join(rest, [SPACE]) == word + ([SPACE] + Join(rest, [SPACE]));
    }
  }

  lemma JoinLonger(u: Unit, words: seq<JsString>)
    requires words != []
    ensures Join([[u] + words[0]] + words[1..], [SPACE]) == [u] + Join(words, [SPACE])
  {
    if |words| > 1 {
      assert ([[u] + words[0]] + words[1..])[1..] == words[1..];
      var tail := Join(words[1..], [SPACE]);
      assert [u] + words[0] + [SPACE] + tail == [u] + (words[0] + [SPACE] + tail);
    }
  }

  lemma {:induction false} JoinEnds(words: seq<JsString>)
    requires AllWords(words) && words != []
    ensures var text := Join(words, [SPACE]); text != [] && !IsSpace(text[0]) && !IsSpace(text[|text| - 1])
  {
    assert IsWord(words[0]);
    if |words| > 1 { JoinEnds(words[1..]); }
  }

  lemma TidiedAlone(u: Unit, rest: JsString)
    requires !IsSpace(u) && (rest == [] || IsSpace(rest[0]))
    ensures Tidied([u] + rest) == [u] + (if Words(rest) == [] then [] else [SPACE] + Tidied(rest))
  {
    WordAlone(u, rest);
    JoinOneMore([u], Words(rest));
  }

  lemma TidiedLonger(u: Unit, rest: JsString)
    requires !IsSpace(u) && rest != [] && !IsSpace(rest[0])
    ensures Tidied([u] + rest) == [u] + Tidied(rest)
  {
    WordLonger(u, rest);
    JoinLonger(u, Words(rest));
  }

  /** A tidied text, and what collapsing leaves of spaces after it. */
  function Body(s: JsString): JsString {
    Tidied(s) + (if Words(s) != [] && s != [] && IsSpace(s[|s| - 1]) then [SPACE] else [])
  }

  lemma BodySpace(u: Unit, rest: JsString)
    requires IsSpace(u)
    ensures Body([u] + rest) == Body(rest)
  {
    assert ([u] + rest)[1..] == rest;
    assert rest != [] ==> ([u] + rest)[|rest|] == rest[|rest| - 1];
  }

  lemma BodyAlone(u: Unit, rest: JsString)
    requires !IsSpace(u) && (rest == [] || IsSpace(rest[0]))
    ensures Body([u] + rest) == [u] + (if rest == [] then [] else [SPACE] + Body(rest))
  {
    TidiedAlone(u, rest);
    WordAlone(u, rest);
    WordsAreWords(rest);
    assert rest != [] ==> ([u] + rest)[|rest|] == rest[|rest| - 1];
  }

  lemma BodyLonger(u: Unit, rest: JsString)
    requires !IsSpace(u) && rest != [] && !IsSpace(rest[0])
    ensures Body([u] + rest) == [u] + Body(rest)
  {
    TidiedLonger(u, rest);
    assert ([u] + rest)[|rest|] == rest[|rest| - 1];
  }

  lemma {:induction false} CollapseIsBody(s: JsString, inRun: bool)
    ensures Collapse(s, inRun) == if s != [] && IsSpace(s[0]) && !inRun then [SPACE] + Body(s) else Body(s)
  {
    if s != [] {
      var (u, rest) := (s[0], s[1..]);
      assert s == [u] + rest;
      CollapseIsBody(rest, IsSpace(u));
      if IsSpace(u) { BodySpace(u, rest); }
      else if rest == [] || IsSpace(rest[0]) { BodyAlone(u, rest); }
      else { BodyLonger(u, rest); }
    }
  }

  lemma TrimTail(t: JsString, tail: JsString)
    requires t != [] && !IsSpace(t[|t| - 1]) && tail in [[], [SPACE]]
    ensures TrimEnd(t + tail) == t
  {
    if tail == [] {
      assert t + tail == t;
    } else {
      assert (t + tail)[|t|] == SPACE && (t + tail)[..|t|] == t;
      assert TrimEnd(t) == t;
    }
  }

  lemma TrimLead(lead: JsString, s: JsString)
    requires (s == [] || !IsSpace(s[0])) && lead in [[], [SPACE]]
    ensures TrimStart(lead + s) == s
  {
    if lead == [] {
      assert lead + s == s;
    } else {
      assert (lead + s)[0] == SPACE && (lead + s)[1..] == s;
      assert TrimStart(s) == s;
    }
  }

  lemma BodyEnds(s: JsString) returns (tail: JsString)
    requires Words(s) != []
    ensures Body(s) == Tidied(s) + tail && tail in [[], [SPACE]]
    ensures Tidied(s) != [] && !IsSpace(Body(s)[0]) && !IsSpace(Tidied(s)[|Tidied(s)| - 1])
  {
    WordsAreWords(s);
    JoinEnds(Words(s));
    tail := if s != [] && IsSpace(s[|s| - 1]) then [SPACE] else [];
    assert Body(s)[0] == Tidied(s)[0];
  }

  lemma TrimAround(lead: JsString, t: JsString, tail: JsString)
    requires lead in [[], [SPACE]] && tail in [[], [SPACE]]
    requires t != [] && !IsSpace(t[0]) && !IsSpace(t[|t| - 1])
    ensures Trim(lead + (t + tail)) == t
  {
    TrimLead(lead, t + tail);
    TrimTail(t, tail);
  }

  /** What collapsing leaves of spaces before the text. */
  function Lead(s: JsString): JsString {
    if s != [] && IsSpace(s[0]) then [SPACE] else []
  }

  lemma TrimmedBody(s: JsString)
    ensures Trim(Lead(s) + Body(s)) == Tidied(s)
  {
    if Words(s) == [] {
      assert Body(s) == [] && Tidied(s) == [];
      TrimLead(Lead(s), []);
    } else {
      var tail := BodyEnds(s);
      TrimAround(Lead(s), Tidied(s), tail);
    }
  }

  lemma TrimmedIsTidied(s: JsString)
    ensures Trim(Collapse(s, false)) == Tidied(s)
  {
    CollapseIsBody(s, false);
    assert [] + Body(s) == Body(s);
    assert Collapse(s, false) == Lead(s) + Body(s);
    TrimmedBody(s);
  }

  lemma SliceIsPrefix(s: JsString, n: nat)
    ensures Slice(s, n) == s[..Min(|s|, n)]
  {
  }

  lemma ForbiddenIsMember(s: JsString)
    ensures (exists i :: 0 <= i < |s| && IsForbidden(s[i])) <==> (exists u :: u in s && IsForbidden(u))
  {
    if i :| 0 <= i < |s| && IsForbidden(s[i]) { assert s[i] in s; }
    if u :| u in s && IsForbidden(u) {
      var i :| 0 <= i < |s| && s[i] == u;
      assert IsForbidden(s[i]);
    }
  }

  /**
   `boundedText` shows the words of a value, one space apart, up to its limit; it shows nothing
   exactly if the value is missing, has a forbidden character, or has no words.
   */
  lemma BoundedTextExactly(value: Option<JsString>, maximum: nat)
    ensures BoundedText(value, maximum) == ShownText(value, maximum)
  {
    if value.Some? {
      var s := value.value;
      ForbiddenIsMember(s);
      TrimmedIsTidied(s);
      WordsAreWords(s);
      if Words(s) != [] { JoinEnds(Words(s)); }
      SliceIsPrefix(Tidied(s), maximum);
    }
  }

  /** The only spaces of a text are single U+0020 between two other characters. */
  predicate Tidy(t: JsString) {
    forall i :: 0 <= i < |t| && IsSpace(t[i]) ==>
      t[i] == 0x20 && 0 < i < |t| - 1 && !IsSpace(t[i - 1]) && !IsSpace(t[i + 1])
  }

  lemma TidyMore(w: JsString, rest: JsString)
    requires IsWord(w) && Tidy(rest) && rest != [] && !IsSpace(rest[0])
    ensures Tidy(w + [SPACE] + rest)
  {
    var (t, n) := (w + [SPACE] + rest, |w|);
    assert forall i :: 0 <= i < n ==> t[i] == w[i] && !IsSpace(t[i]);
    forall i | 0 <= i < |t| && IsSpace(t[i])
      ensures t[i] == 0x20 && 0 < i < |t| - 1 && !IsSpace(t[i - 1]) && !IsSpace(t[i + 1])
    {
      if i == n {
        assert t[n - 1] == w[n - 1] && t[n + 1] == rest[0];
      } else {
        var k := i - n - 1;
        assert t[i] == rest[k];
        assert t[i - 1] == rest[k - 1] && t[i + 1] == rest[k + 1];
      }
    }
  }

  /** Tidied text is tidy. */
  lemma {:induction false} TidiedIsTidy(words: seq<JsString>)
    requires AllWords(words)
    ensures Tidy(Join(words, [SPACE]))
  {
    if words != [] { assert IsWord(words[0]); }
    if |words| > 1 {
      TidiedIsTidy(words[1..]);
      JoinEnds(words[1..]);
      TidyMore(words[0], Join(words[1..], [SPACE]));
    }
  }

  /** What is shown, before it is cut, is tidy and has the words of the value, in order. */
  lemma ShownIsTidy(s: JsString)
    ensures Tidy(Tidied(s)) && Words(Tidied(s)) == Words(s)
  {
    WordsAreWords(s);
    TidiedIsTidy(Words(s));
    WordsOfTidied(Words(s));
  }

  lemma FirstShorter(words: seq<JsString>)
    requires words != [] && IsWord(words[0]) && |words[0]| > 1
    ensures var w := words[0];
            && IsWord(w[1..])
            && Join(words, [SPACE]) == [w[0]] + Join([w[1..]] + words[1..], [SPACE])
            && [[w[0]] + w[1..]] + words[1..] == words
  {
    var w := words[0];
    var shorter := [w[1..]] + words[1..];
    assert [w[0]] + w[1..] == w && shorter[1..] == words[1..];
    JoinLonger(w[0], shorter);
  }

  /** Reading words and writing them with one space between undo each other. */
  lemma {:induction false} WordsOfTidied(words: seq<JsString>)
    requires AllWords(words)
    ensures Words(Join(words, [SPACE])) == words
    decreases |words|, if words == [] then 0 else |words[0]|
  {
    if words != [] {
      var w := words[0];
      assert IsWord(w);
      if |w| > 1 {
        var shorter := [w[1..]] + words[1..];
        FirstShorter(words);
        WordsOfTidied(shorter);
        JoinEnds(shorter);
        WordLonger(w[0], Join(shorter, [SPACE]));
        assert shorter[0] == w[1..] && shorter[1..] == words[1..];
      } else {
        assert w == [w[0]] && words == [w] + words[1..];
        if |words| > 1 {
          WordsOfTidied(words[1..]);
          var rest := [SPACE] + Join(words[1..], [SPACE]);
          assert Join(words, [SPACE]) == [w[0]] + rest;
          assert rest[1..] == Join(words[1..], [SPACE]);
          WordAlone(w[0], rest);
        } else {
          assert w == [w[0]] + [];
          WordAlone(w[0], []);
        }
      }
    }
  }

  // ---------------------------------------------------------------- trimming

  /** Trimming takes the spaces off both ends and nothing else. */
  lemma {:induction false} TrimExactly(s: JsString) returns (before: JsString, after: JsString)
    ensures s == before + Trim(s) + after && AllSpaces(before) && AllSpaces(after)
    ensures Trim(s) != [] ==> !IsSpace(Trim(s)[0]) && !IsSpace(Trim(s)[|Trim(s)| - 1])
  {
    before := TrimmedStart(s);
    after := TrimmedEnd(TrimStart(s));
    if Trim(s) != [] { assert TrimStart(s)[0] == Trim(s)[0]; }
  }

  lemma {:induction false} TrimmedStart(s: JsString) returns (before: JsString)
    ensures s == before + TrimStart(s) && AllSpaces(before)
    ensures TrimStart(s) != [] ==> !IsSpace(TrimStart(s)[0])
  {
    before := [];
    if s != [] && IsSpace(s[0]) {
      before := TrimmedStart(s[1..]);
      before := [s[0]] + before;
    }
  }

  lemma {:induction false} TrimmedEnd(s: JsString) returns (after: JsString)
    ensures s == TrimEnd(s) + after && AllSpaces(after)
    ensures TrimEnd(s) != [] ==> !IsSpace(TrimEnd(s)[|TrimEnd(s)| - 1])
  {
    after := [];
    if s != [] && IsSpace(s[|s| - 1]) {
      after := TrimmedEnd(s[..|s| - 1]);
      after := after + [s[|s| - 1]];
    }
  }
}
