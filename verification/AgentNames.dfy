/**
 Application names as the Compass runtime agent normalises them
 (components/compass-runtime-agent/internal/kyma/applications/normalizer.go).

 Lower-casing works rune by rune, so it is a parameter: every theorem holds for any mapping that agrees with ASCII
 lower-casing on ASCII characters, whatever it does elsewhere.
 */
module AgentNames {
  import opened Text
  import opened Normalization

  const PREFIX := "mp-"

  ghost predicate FoldsAscii(fold: char -> char) {
    forall c: char :: c < 128 as char ==> fold(c) == ToLower(c)
  }

  /** Lower case, with every character other than a letter, a digit or a dash replaced by a dash. */
  function Clean(name: string, fold: char -> char): string {
    seq(|name|, i requires 0 <= i < |name| =>
      var c := fold(name[i]);
      if IsLowerAlphaNumeric(c) || c == '-' then c else '-')
  }

  function SqueezeDashes(s: string): string {
    if s == "" then ""
    else if |s| > 1 && s[0] == '-' && s[1] == '-' then SqueezeDashes(s[1..])
    else [s[0]] + SqueezeDashes(s[1..])
  }

  function NormalizeText(name: string, fold: char -> char): string {
    TrimLast(SqueezeDashes(Clean(name, fold)), '-')
  }

  predicate IsNormalized(name: string, fold: char -> char) {
    PREFIX <= name && name == NormalizeText(name, fold)
  }

  function Normalize(name: string, fold: char -> char): string {
    if IsNormalized(name, fold) then name else NormalizeText(PREFIX + name, fold)
  }

  // ---------------------------------------------------------------- meaning

  predicate IsClean(s: string) {
    forall i :: 0 <= i < |s| ==> IsLowerAlphaNumeric(s[i]) || s[i] == '-'
  }

  lemma {:induction false} SqueezeIsReplaceRuns(s: string)
    requires IsClean(s)
    ensures SqueezeDashes(s) == ReplaceRuns(s)
    decreases |s|
  {
    if s != "" {
      SqueezeIsReplaceRuns(s[1..]);
      if s[0] == '-' && |s| > 1 && s[1] != '-' {
        assert SkipRun(s[1..]) == s[1..];
      }
    }
  }

  lemma NormalizeTextJoinsWords(name: string, fold: char -> char)
    ensures NormalizeText(name, fold) == DashedWords(Clean(name, fold))
  {
    SqueezeIsReplaceRuns(Clean(name, fold));
    ReplaceRunsJoinsWords(Clean(name, fold));
  }

  /** The words that tell two application names apart. */
  function NameWords(name: string, fold: char -> char): seq<string> {
    Words(Clean(name, fold))
  }

  lemma PrefixedWords(name: string, fold: char -> char)
    requires FoldsAscii(fold)
    ensures NormalizeText(PREFIX + name, fold) == Join(["mp"] + NameWords(name, fold), '-')
  {
    var clean := Clean(PREFIX + name, fold);
    var rest := Clean(name, fold);
    assert clean == ['m', 'p', '-'] + rest;
    NormalizeTextJoinsWords(PREFIX + name, fold);
    assert FirstWord(clean) == "mp" by {
      assert clean[1..][1..] == ['-'] + rest;
      assert FirstWord(clean[1..][1..]) == "";
    }
    assert clean[2..] == ['-'] + rest;
    assert clean[2..][1..] == rest;
    assert Words(clean) == ["mp"] + Words(rest);
  }

  /** What a normalised application name is: `mp` and the words of the name, joined with single dashes. */
  lemma NormalizeJoinsWords(name: string, fold: char -> char)
    requires FoldsAscii(fold)
    ensures Normalize(name, fold) ==
            if IsNormalized(name, fold) then name else Join(["mp"] + NameWords(name, fold), '-')
  {
    PrefixedWords(name, fold);
  }

  // ---------------------------------------------------------------- stability

  /** Words of letters and digits, as they stand between the dashes of a name. */
  predicate AreWords(words: seq<string>) {
    forall w <- words :: w != "" && forall i :: 0 <= i < |w| ==> IsLowerAlphaNumeric(w[i])
  }

  lemma {:induction false} WordsAreWords(s: string)
    requires IsClean(s)
    ensures AreWords(Words(s))
    decreases |s|
  {
    if s == "" {
    } else if !IsAlphaNumeric(s[0]) {
      WordsAreWords(s[1..]);
    } else {
      var w := FirstWord(s);
      FirstWordIsMaximal(s);
      WordsAreWords(s[|w|..]);
    }
  }

  lemma {:induction false} WordsOfJoin(words: seq<string>)
    requires AreWords(words)
    ensures Words(Join(words, '-')) == words
    ensures IsClean(Join(words, '-'))
    ensures words != [] ==> !StartsOutsideWord(Join(words, '-')) && Join(words, '-') != ""
  {
    if words != [] {
      var w := words[0];
      assert w in words;
      var rest := Join(words[1..], '-');
      WordsOfJoin(words[1..]);
      if |words| == 1 {
        FirstWordOfConcat(w, "");
        assert w + "" == w && w[|w|..] == "";
        assert words == [w];
      } else {
        assert words == [w] + words[1..];
        OneWordMore(w, rest);
      }
    }
  }

  lemma OneWordMore(w: string, rest: string)
    requires AreWords([w]) && IsClean(rest) && !StartsOutsideWord(rest)
    ensures var s := w + ['-'] + rest;
            Words(s) == [w] + Words(rest) && IsClean(s) && !StartsOutsideWord(s) && s != ""
  {
    assert w in [w];
    var s := w + ['-'] + rest;
    assert s == w + (['-'] + rest);
    FirstWordOfConcat(w, ['-'] + rest);
    assert s[|w|..] == ['-'] + rest && s[|w|..][1..] == rest;
  }

  lemma {:induction false} FirstWordOfConcat(w: string, rest: string)
    requires forall i :: 0 <= i < |w| ==> IsLowerAlphaNumeric(w[i])
    requires rest == "" || !IsAlphaNumeric(rest[0])
    ensures FirstWord(w + rest) == w
  {
    if w == "" {
      assert w + rest == rest;
    } else {
      assert (w + rest)[1..] == w[1..] + rest;
      FirstWordOfConcat(w[1..], rest);
    }
  }

  /** A name joined from words is a fixed point. */
  lemma NormalizeTextOfJoin(words: seq<string>, fold: char -> char)
    requires FoldsAscii(fold) && AreWords(words)
    ensures NormalizeText(Join(words, '-'), fold) == Join(words, '-')
  {
    var name := Join(words, '-');
    WordsOfJoin(words);
    assert Clean(name, fold) == name;
    NormalizeTextJoinsWords(name, fold);
  }

  lemma MpIsAWord()
    ensures AreWords(["mp"])
  {
  }

  predicate HasWordCharacter(name: string, fold: char -> char) {
    exists c <- name :: IsLowerAlphaNumeric(fold(c))
  }

  lemma {:induction false} NoWords(s: string)
    ensures Words(s) == [] <==> forall c <- s :: !IsAlphaNumeric(c)
    decreases |s|
  {
    if s != "" && !IsAlphaNumeric(s[0]) {
      NoWords(s[1..]);
      assert forall c :: c in s <==> c == s[0] || c in s[1..];
    }
  }

  lemma NameWordsExist(name: string, fold: char -> char)
    ensures NameWords(name, fold) != [] <==> HasWordCharacter(name, fold)
  {
    var clean := Clean(name, fold);
    NoWords(clean);
    if HasWordCharacter(name, fold) {
      var i :| 0 <= i < |name| && IsLowerAlphaNumeric(fold(name[i]));
      assert clean[i] in clean;
    }
    if NameWords(name, fold) != [] {
      var i :| 0 <= i < |clean| && IsAlphaNumeric(clean[i]);
      assert name[i] in name;
    }
  }

  lemma PrefixedNameIsNormalized(words: seq<string>, fold: char -> char)
    requires FoldsAscii(fold) && AreWords(words) && words != []
    ensures IsNormalized(Join(["mp"] + words, '-'), fold)
  {
    MpIsAWord();
    NormalizeTextOfJoin(["mp"] + words, fold);
    assert (["mp"] + words)[1..] == words;
    assert Join(["mp"] + words, '-') == PREFIX + Join(words, '-');
  }

  lemma NormalizeOfBarePrefix(fold: char -> char)
    requires FoldsAscii(fold)
    ensures Normalize("mp", fold) == "mp-mp"
  {
    MpIsAWord();
    assert Join(["mp"], '-') == "mp";
    WordsOfJoin(["mp"]);
    assert Clean("mp", fold) == "mp";
    PrefixedWords("mp", fold);
    assert (["mp"] + ["mp"])[1..] == ["mp"];
    assert Join(["mp"] + ["mp"], '-') == "mp" + ['-'] + "mp";
  }

  lemma NamesWithoutWords(name: string, fold: char -> char)
    requires FoldsAscii(fold) && !HasWordCharacter(name, fold)
    ensures Normalize(name, fold) == "mp"
  {
    NameWordsExist(name, fold);
    PrefixedWords(name, fold);
    assert ["mp"] + [] == ["mp"];
  }

  lemma NamesWithWords(name: string, fold: char -> char)
    requires FoldsAscii(fold) && HasWordCharacter(name, fold)
    ensures IsNormalized(Normalize(name, fold), fold)
  {
    NameWordsExist(name, fold);
    WordsAreWords(Clean(name, fold));
    PrefixedWords(name, fold);
    PrefixedNameIsNormalized(NameWords(name, fold), fold);
  }

  /**
   Normalising a second time changes nothing exactly when the name has a letter or a digit (after lower-casing). The
   other names all become "mp", which is itself not normalised and turns into "mp-mp".
   */
  lemma NormalizeIdempotent(name: string, fold: char -> char)
    requires FoldsAscii(fold)
    ensures Normalize(Normalize(name, fold), fold) == Normalize(name, fold) <==> HasWordCharacter(name, fold)
    ensures if HasWordCharacter(name, fold) then IsNormalized(Normalize(name, fold), fold)
            else Normalize(name, fold) == "mp" && Normalize("mp", fold) == "mp-mp"
  {
    if HasWordCharacter(name, fold) {
      NamesWithWords(name, fold);
    } else {
      NamesWithoutWords(name, fold);
      NormalizeOfBarePrefix(fold);
    }
  }

  /** The words by which two application names are told apart after normalisation. */
  function Identity(name: string, fold: char -> char): seq<string> {
    if IsNormalized(name, fold) then NameWords(name, fold) else ["mp"] + NameWords(name, fold)
  }

  lemma NormalizeJoinsIdentity(name: string, fold: char -> char)
    requires FoldsAscii(fold)
    ensures AreWords(Identity(name, fold)) && Normalize(name, fold) == Join(Identity(name, fold), '-')
  {
    var clean := Clean(name, fold);
    WordsAreWords(clean);
    MpIsAWord();
    NormalizeJoinsWords(name, fold);
    if IsNormalized(name, fold) {
      NormalizeTextJoinsWords(name, fold);
      assert clean[0] == 'm';
    }
  }

  /** Two names collide after normalisation exactly when they consist of the same words. */
  lemma NormalizeCollision(a: string, b: string, fold: char -> char)
    requires FoldsAscii(fold)
    ensures Normalize(a, fold) == Normalize(b, fold) <==> Identity(a, fold) == Identity(b, fold)
  {
    NormalizeJoinsIdentity(a, fold);
    NormalizeJoinsIdentity(b, fold);
    WordsOfJoin(Identity(a, fold));
    WordsOfJoin(Identity(b, fold));
  }
}
