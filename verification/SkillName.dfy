/**
 * Skill names: the normaliser of the conversion script and its validator, against the
 * grammar `[a-z0-9]+(-[a-z0-9]+)*`.
 */
module SkillName {

  predicate Alnum(c: char) { 'a' <= c <= 'z' || '0' <= c <= '9' }

  predicate Allowed(c: char) { Alnum(c) || c == '-' }

  // --------------------------------------------------------------------- the normaliser

  function Underscored(s: string): string
    decreases |s|
  {
    if s == "" then "" else [if s[0] == '_' then '-' else s[0]] + Underscored(s[1..])
  }

  function Cleaned(s: string): string
    decreases |s|
  {
    if s == "" then "" else (if Allowed(s[0]) then [s[0]] else []) + Cleaned(s[1..])
  }

  /** Each run of hyphens becomes one. */
  function Collapsed(s: string): string
    decreases |s|
  {
    if s == "" then ""
    else if |s| >= 2 && s[0] == '-' == s[1] then Collapsed(s[1..])
    else [s[0]] + Collapsed(s[1..])
  }

  function StripLeft(s: string): string
    decreases |s|
  {
    if s != "" && s[0] == '-' then StripLeft(s[1..]) else s
  }

  function StripRight(s: string): string
    decreases |s|
  {
    if s != "" && s[|s| - 1] == '-' then StripRight(s[..|s| - 1]) else s
  }

  /** `lower` is the case mapping of the language, which is not modelled. */
  function Normalize(lower: string -> string, name: string): string {
    StripRight(StripLeft(Collapsed(Cleaned(Underscored(lower(name))))))
  }

  // ------------------------------------------------------------------------ the grammar

  function Join(words: seq<string>): string
    decreases |words|
  {
    if words == [] then "" else if |words| == 1 then words[0] else words[0] + "-" + Join(words[1..])
  }

  ghost predicate Word(w: string) {
    w != "" && forall i :: 0 <= i < |w| ==> 'a' <= w[i] <= 'z' || '0' <= w[i] <= '9'
  }

  ghost predicate AllWords(words: seq<string>) { forall i :: 0 <= i < |words| ==> Word(words[i]) }

  ghost predicate InGrammar(s: string) { exists words :: words != [] && AllWords(words) && s == Join(words) }

  /** The non-empty alphanumeric runs between separators; any other character is ignored. */
  function Words(s: string, current: string): seq<string>
    decreases |s|
  {
    var done := if current == "" then [] else [current];
    if s == "" then done
    else if s[0] == '-' || s[0] == '_' then done + Words(s[1..], "")
    else Words(s[1..], if Alnum(s[0]) then current + [s[0]] else current)
  }

  /** A hyphen or an underscore ends a word. */
  lemma {:induction false} WordsSplit(a: string, c: char, b: string, current: string)
    requires c == '-' || c == '_'
    ensures Words(a + [c] + b, current) == Words(a, current) + Words(b, "")
    decreases |a|
  {
    var s := a + [c] + b;
    if a == "" {
      assert s[0] == c && s[1..] == b;
    } else {
      assert s[0] == a[0] && s[1..] == a[1..] + [c] + b;
      WordsSplit(a[1..], c, b, "");
      WordsSplit(a[1..], c, b, current);
      WordsSplit(a[1..], c, b, current + [a[0]]);
    }
  }

  /** Any other character but the letters and digits might as well not be there. */
  lemma {:induction false} WordsIgnore(a: string, c: char, b: string, current: string)
    requires !('a' <= c <= 'z' || '0' <= c <= '9' || c == '-' || c == '_')
    ensures Words(a + [c] + b, current) == Words(a + b, current)
    decreases |a|
  {
    var s, t := a + [c] + b, a + b;
    if a == "" {
      assert s[0] == c && s[1..] == b == t;
    } else {
      assert s[0] == a[0] == t[0] && s[1..] == a[1..] + [c] + b && t[1..] == a[1..] + b;
      WordsIgnore(a[1..], c, b, "");
      WordsIgnore(a[1..], c, b, current);
      WordsIgnore(a[1..], c, b, current + [a[0]]);
    }
  }

  lemma {:induction false} WordsAreWords(s: string, current: string)
    requires current == "" || Word(current)
    ensures AllWords(Words(s, current))
    ensures current != "" ==> Words(s, current) != []
    ensures Words(s, current) == [] <==> current == "" && forall i :: 0 <= i < |s| ==> !Alnum(s[i])
    decreases |s|
  {
    if s != "" {
      if s[0] == '-' || s[0] == '_' {
        WordsAreWords(s[1..], "");
      } else {
        WordsAreWords(s[1..], if Alnum(s[0]) then current + [s[0]] else current);
      }
      assert s == [s[0]] + s[1..];
    }
  }

  lemma {:induction false} CleaningKeepsWords(s: string, current: string)
    ensures Words(Cleaned(Underscored(s)), current) == Words(s, current)
    ensures forall i :: 0 <= i < |Cleaned(Underscored(s))| ==> Allowed(Cleaned(Underscored(s))[i])
    decreases |s|
  {
    if s != "" {
      var sep := s[0] == '-' || s[0] == '_';
      var next := if sep then "" else if Alnum(s[0]) then current + [s[0]] else current;
      CleaningKeepsWords(s[1..], next);
      var rest := Cleaned(Underscored(s[1..]));
      assert Underscored(s)[1..] == Underscored(s[1..]);
      if sep {
        assert Cleaned(Underscored(s)) == ['-'] + rest;
        assert (['-'] + rest)[1..] == rest;
      } else if Alnum(s[0]) {
        assert Cleaned(Underscored(s)) == [s[0]] + rest;
        assert ([s[0]] + rest)[1..] == rest;
      } else {
        assert Cleaned(Underscored(s)) == rest;
      }
    }
  }

  lemma {:induction false} StripRightOfConcat(a: string, b: string)
    requires StripRight(b) != ""
    ensures StripRight(a + b) == a + StripRight(b)
    decreases |b|
  {
    if b[|b| - 1] == '-' {
      assert (a + b)[..|a + b| - 1] == a + b[..|b| - 1];
      StripRightOfConcat(a, b[..|b| - 1]);
    }
  }

  /** With a word begun, collapsing the rest and stripping the end joins the words. */
  lemma {:induction false} CollapsedJoins(s: string, current: string)
    requires Word(current) && forall i :: 0 <= i < |s| ==> Allowed(s[i])
    ensures StripRight(current + Collapsed(s)) == Join(Words(s, current))
    decreases |s|
  {
    if s == "" {
      assert current + Collapsed(s) == current;
    } else if s[0] != '-' {
      CollapsedJoins(s[1..], current + [s[0]]);
      LetterJoins(s, current);
    } else if |s| == 1 {
      LoneHyphenJoins(s, current);
    } else if s[1] == '-' {
      CollapsedJoins(s[1..], current);
      HyphensJoin(s, current);
    } else {
      CollapsedJoins(s[2..], [s[1]]);
      NextWordJoins(s, current);
    }
  }

  lemma LetterJoins(s: string, current: string)
    requires s != "" && Alnum(s[0])
    ensures current + Collapsed(s) == current + [s[0]] + Collapsed(s[1..])
    ensures Words(s, current) == Words(s[1..], current + [s[0]])
  {
    LetterCollapses(s);
    LetterExtends(s, current);
  }

  lemma LetterCollapses(s: string)
    requires s != "" && Alnum(s[0])
    ensures Collapsed(s) == [s[0]] + Collapsed(s[1..])
  {
  }

  lemma LetterExtends(s: string, current: string)
    requires s != "" && Alnum(s[0])
    ensures Words(s, current) == Words(s[1..], current + [s[0]])
  {
  }

  lemma LoneHyphenJoins(s: string, current: string)
    requires Word(current) && s == "-"
    ensures StripRight(current + Collapsed(s)) == Join(Words(s, current))
  {
    assert s[1..] == "" && Collapsed(s) == "-";
    assert (current + "-")[..|current|] == current;
    assert Words(s, current) == [current];
  }

  lemma HyphensJoin(s: string, current: string)
    requires Word(current) && |s| >= 2 && s[0] == '-' == s[1]
    ensures Collapsed(s) == Collapsed(s[1..]) && Words(s, current) == Words(s[1..], current)
  {
    assert s[1..][1..] == s[2..];
    assert Words(s[1..], "") == [] + Words(s[2..], "") == Words(s[2..], "");
  }

  lemma NextWordJoins(s: string, current: string)
    requires Word(current) && |s| >= 2 && s[0] == '-' && Alnum(s[1])
    requires StripRight([s[1]] + Collapsed(s[2..])) == Join(Words(s[2..], [s[1]]))
    ensures StripRight(current + Collapsed(s)) == Join(Words(s, current))
  {
    var tail, later := [s[1]] + Collapsed(s[2..]), Words(s[2..], [s[1]]);
    assert s[1..][1..] == s[2..] && "" + [s[1]] == [s[1]];
    assert Words(s[1..], "") == later && Collapsed(s[1..]) == tail;
    assert current + Collapsed(s) == current + "-" + tail;
    WordsAreWords(s[2..], [s[1]]);
    JoinIsNotEmpty(later);
    StripRightOfConcat(current + "-", tail);
    assert Words(s, current) == [current] + later;
  }

  lemma JoinIsNotEmpty(words: seq<string>)
    requires words != [] && AllWords(words)
    ensures Join(words) != "" && Alnum(Join(words)[0])
  {
    assert Word(words[0]);
  }

  lemma {:induction false} StrippedCollapsedJoins(s: string)
    requires forall i :: 0 <= i < |s| ==> Allowed(s[i])
    ensures StripRight(StripLeft(Collapsed(s))) == Join(Words(s, ""))
    decreases |s|
  {
    if s != "" {
      if s[0] != '-' {
        CollapsedJoins(s[1..], [s[0]]);
        assert "" + [s[0]] == [s[0]];
      } else {
        StrippedCollapsedJoins(s[1..]);
        assert Words(s, "") == Words(s[1..], "");
        if |s| == 1 || s[1] != '-' { assert Collapsed(s)[1..] == Collapsed(s[1..]); }
      }
    }
  }

  /** What a normalised name is: the words of the lower-cased name, joined by single hyphens. */
  lemma NormalizeJoinsTheWords(lower: string -> string, name: string)
    ensures Normalize(lower, name) == Join(Words(lower(name), ""))
  {
    CleaningKeepsWords(lower(name), "");
    StrippedCollapsedJoins(Cleaned(Underscored(lower(name))));
  }

  /** It is in the grammar, or empty, the latter just when no letter or digit is left to keep. */
  lemma NormalizeIsEmptyOrInGrammar(lower: string -> string, name: string)
    ensures Normalize(lower, name) == "" || InGrammar(Normalize(lower, name))
    ensures Normalize(lower, name) == "" <==>
      forall c :: c in lower(name) ==> !('a' <= c <= 'z' || '0' <= c <= '9')
  {
    var words := Words(lower(name), "");
    NormalizeJoinsTheWords(lower, name);
    WordsAreWords(lower(name), "");
    assert forall i :: 0 <= i < |lower(name)| ==> lower(name)[i] in lower(name);
    if words != [] { JoinIsNotEmpty(words); }
  }

  lemma {:induction false} WordsEatAWord(w: string, rest: string, current: string)
    requires forall i :: 0 <= i < |w| ==> Alnum(w[i])
    ensures Words(w + rest, current) == Words(rest, current + w)
    decreases |w|
  {
    if w == "" {
      assert w + rest == rest && current + w == current;
    } else {
      assert (w + rest)[1..] == w[1..] + rest;
      WordsEatAWord(w[1..], rest, current + [w[0]]);
      assert current + [w[0]] + w[1..] == current + w;
    }
  }

  lemma {:induction false} WordsOfJoin(words: seq<string>)
    requires AllWords(words)
    ensures Words(Join(words), "") == words
    decreases |words|
  {
    if words != [] {
      assert Word(words[0]);
      var rest := if |words| == 1 then "" else "-" + Join(words[1..]);
      assert Join(words) == words[0] + rest;
      WordsEatAWord(words[0], rest, "");
      assert "" + words[0] == words[0];
      WordsOfJoin(words[1..]);
      if |words| > 1 { assert rest[1..] == Join(words[1..]); }
    }
  }

  /** Lower case leaves words of the grammar alone. */
  ghost predicate FixesGrammar(lower: string -> string) { forall s :: InGrammar(s) || s == "" ==> lower(s) == s }

  /** A name in the grammar is its own normal form. */
  lemma NormalizeFixesGrammar(lower: string -> string, name: string)
    requires FixesGrammar(lower) && InGrammar(name)
    ensures Normalize(lower, name) == name
  {
    var words :| words != [] && AllWords(words) && name == Join(words);
    NormalizeJoinsTheWords(lower, name);
    WordsOfJoin(words);
  }

  lemma NormalizeTwice(lower: string -> string, name: string)
    requires FixesGrammar(lower)
    ensures Normalize(lower, Normalize(lower, name)) == Normalize(lower, name)
  {
    var once := Normalize(lower, name);
    NormalizeIsEmptyOrInGrammar(lower, name);
    if once != "" { NormalizeFixesGrammar(lower, once); } else { NormalizeIsEmptyOrInGrammar(lower, once); }
  }

  // ---------------------------------------------------------------------- the validator

  /** The compiled pattern; its `$` also matches before a newline that ends the text. */
  predicate Matches(s: string, inWord: bool)
    decreases |s|
  {
    if s == "" || s == "\n" then inWord
    else if Alnum(s[0]) then Matches(s[1..], true)
    else s[0] == '-' && inWord && Matches(s[1..], false)
  }

  /** With the part of a word that is already read in `begun`, the rest is matched or not. */
  lemma {:induction false} MatchesTheGrammar(s: string, begun: string)
    requires (forall i :: 0 <= i < |begun| ==> Alnum(begun[i])) && (s != "" ==> s[|s| - 1] != '\n')
    ensures Matches(s, begun != "") <==> InGrammar(begun + s)
    decreases |s|
  {
    if s == "" {
      assert begun + s == begun;
      PartOfAWord(begun);
    } else if Alnum(s[0]) {
      MatchesTheGrammar(s[1..], begun + [s[0]]);
      assert begun + [s[0]] + s[1..] == begun + s;
    } else if s[0] == '-' && begun != "" {
      MatchesTheGrammar(s[1..], "");
      AfterHyphen(begun, s);
    } else {
      NoOtherCharacter(begun, s);
    }
  }

  /** Letters and digits alone are a name unless there are none. */
  lemma PartOfAWord(begun: string)
    requires forall i :: 0 <= i < |begun| ==> Alnum(begun[i])
    ensures InGrammar(begun) <==> begun != ""
  {
    if begun != "" {
      assert AllWords([begun]) && Join([begun]) == begun;
    } else if InGrammar("") {
      var words :| words != [] && AllWords(words) && "" == Join(words);
      JoinIsNotEmpty(words);
    }
  }

  lemma AfterHyphen(begun: string, s: string)
    requires Word(begun) && s != "" && s[0] == '-'
    ensures InGrammar(begun + s) <==> InGrammar("" + s[1..])
  {
    assert "" + s[1..] == s[1..] && begun + s == begun + "-" + s[1..];
    HyphenSplits(begun, s[1..]);
  }

  /** After a whole word, a hyphen must be followed by a name of the grammar, and only then. */
  lemma HyphenSplits(begun: string, rest: string)
    requires Word(begun)
    ensures InGrammar(begun + "-" + rest) <==> InGrammar(rest)
  {
    var s := begun + "-" + rest;
    if InGrammar(rest) {
      var words :| words != [] && AllWords(words) && rest == Join(words);
      assert ([begun] + words)[1..] == words;
      assert AllWords([begun] + words) && s == Join([begun] + words);
    }
    if InGrammar(s) {
      var words :| words != [] && AllWords(words) && s == Join(words);
      WordsOfJoin(words);
      assert s == begun + ("-" + rest);
      WordsEatAWord(begun, "-" + rest, "");
      assert "" + begun == begun && ("-" + rest)[1..] == rest;
      assert words == [begun] + Words(rest, "");
      FirstWordIs(words, begun, rest);
    }
  }

  lemma FirstWordIs(words: seq<string>, begun: string, rest: string)
    requires words != [] && AllWords(words) && words[0] == begun && Join(words) == begun + "-" + rest
    ensures InGrammar(rest)
  {
    assert |Join(words)| > |begun|;
    var tail := Join(words[1..]);
    assert (begun + "-" + tail)[|begun| + 1..] == tail && (begun + "-" + rest)[|begun| + 1..] == rest;
    assert AllWords(words[1..]) && words[1..] != [];
  }

  /** Outside the allowed characters, or with a hyphen where a word must begin, nothing is in the grammar. */
  lemma NoOtherCharacter(begun: string, s: string)
    requires (forall i :: 0 <= i < |begun| ==> Alnum(begun[i])) && s != ""
    requires !Alnum(s[0]) && !(s[0] == '-' && begun != "")
    ensures !InGrammar(begun + s)
  {
    assert (begun + s)[|begun|] == s[0];
    if InGrammar(begun + s) {
      var words :| words != [] && AllWords(words) && begun + s == Join(words);
      JoinAllows(words, |begun|);
      JoinIsNotEmpty(words);
    }
  }

  lemma {:induction false} JoinAllows(words: seq<string>, i: nat)
    requires AllWords(words) && i < |Join(words)|
    ensures Allowed(Join(words)[i])
    decreases |words|
  {
    assert Word(words[0]);
    if |words| > 1 && i > |words[0]| { JoinAllows(words[1..], i - |words[0]| - 1); }
  }

  /** The pattern accepts the grammar and, beside it, just the same names with one newline appended. */
  lemma PatternAccepts(s: string)
    ensures Matches(s, false) <==>
      InGrammar(s) || (s != "" && s[|s| - 1] == '\n' && InGrammar(s[..|s| - 1]))
  {
    if s != "" && s[|s| - 1] == '\n' {
      NewlineIsIgnored(s[..|s| - 1], false);
      assert s[..|s| - 1] + "\n" == s;
      NoNewlineInside(s);
      PatternAcceptsPlain(s[..|s| - 1]);
    } else {
      assert "" + s == s;
      MatchesTheGrammar(s, "");
    }
  }

  lemma PatternAcceptsPlain(s: string)
    ensures Matches(s, false) && (s == "" || s[|s| - 1] != '\n') <==> InGrammar(s)
  {
    if s == "" || s[|s| - 1] != '\n' {
      assert "" + s == s;
      MatchesTheGrammar(s, "");
    } else {
      NoNewlineInside(s);
    }
  }

  lemma NoNewlineInside(s: string)
    requires s != "" && s[|s| - 1] == '\n'
    ensures !InGrammar(s)
  {
    if InGrammar(s) {
      var words :| words != [] && AllWords(words) && s == Join(words);
      JoinAllows(words, |s| - 1);
    }
  }

  /** A newline at the end changes nothing, unless one is there already. */
  lemma {:induction false} NewlineIsIgnored(s: string, inWord: bool)
    ensures Matches(s + "\n", inWord) <==> Matches(s, inWord) && (s == "" || s[|s| - 1] != '\n')
    decreases |s|
  {
    if s == "" {
      assert s + "\n" == "\n";
    } else {
      assert (s + "\n")[1..] == s[1..] + "\n";
      NewlineIsIgnored(s[1..], true);
      NewlineIsIgnored(s[1..], false);
    }
  }

  datatype Error = Empty | TooLong(length: nat) | BadPattern

  const MAX_LENGTH: nat := 64

  /** The errors of a name, in order. */
  function ErrorsOf(name: string): seq<Error> {
    if name == "" then [Empty]
    else (if |name| > MAX_LENGTH then [TooLong(|name|)] else []) + (if Matches(name, false) then [] else [BadPattern])
  }

  method ValidateSkillName(name: string) returns (errors: seq<Error>)
    ensures errors == ErrorsOf(name)
    ensures name == "" ==> errors == [Empty]
    ensures TooLong(|name|) in errors <==> |name| > 64
    ensures BadPattern in errors <==>
      name != "" && !InGrammar(name) && (name[|name| - 1] == '\n' ==> !InGrammar(name[..|name| - 1]))
  {
    PatternAccepts(name);
    errors := [];
    if name == "" {
      errors := errors + [Empty];
      return;
    }
    if |name| > MAX_LENGTH { errors := errors + [TooLong(|name|)]; }
    if !Matches(name, false) { errors := errors + [BadPattern]; }
  }

  /** A normalised name can only be empty or too long. */
  lemma NormalizedNameErrors(lower: string -> string, name: string)
    ensures
      var n := Normalize(lower, name);
      ErrorsOf(n) == if n == "" then [Empty] else if |n| > 64 then [TooLong(|n|)] else []
  {
    NormalizeIsEmptyOrInGrammar(lower, name);
    PatternAccepts(Normalize(lower, name));
  }

  /** The validator passes exactly the short names of the grammar, with or without a final newline. */
  lemma PassesValidation(name: string)
    ensures ErrorsOf(name) == [] <==>
      && |name| <= 64
      && (InGrammar(name) || (name != "" && name[|name| - 1] == '\n' && InGrammar(name[..|name| - 1])))
  {
    PatternAccepts(name);
    if InGrammar("") { PatternAcceptsPlain(""); }
  }

  /** A name that passes and is yet outside the grammar. */
  lemma NewlinePasses()
    ensures ErrorsOf("a\n") == [] && !InGrammar("a\n")
  {
    assert AllWords(["a"]) && Join(["a"]) == "a" && "a\n"[..1] == "a";
    PassesValidation("a\n");
    NoNewlineInside("a\n");
  }
}
