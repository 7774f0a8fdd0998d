/**
 Service and API names as the central application gateway normalises them
 (components/central-application-gateway/pkg/normalization/normalization.go).
 */
module Normalization {
  import opened Text

  const MAX_NAME_LENGTH := 57

  predicate IsAlphaNumeric(c: char) {
    'A' <= c <= 'Z' || 'a' <= c <= 'z' || '0' <= c <= '9'
  }

  predicate IsLowerAlphaNumeric(c: char) {
    'a' <= c <= 'z' || '0' <= c <= '9'
  }

  function ToLower(c: char): char {
    if 'A' <= c <= 'Z' then (c as int + 32) as char else c
  }

  function Lower(s: string): string {
    seq(|s|, i requires 0 <= i < |s| => ToLower(s[i]))
  }

  /** Drops the longest prefix without letters and digits. */
  function SkipRun(s: string): string
  {
    if s != "" && !IsAlphaNumeric(s[0]) then SkipRun(s[1..]) else s
  }

  /** Every maximal run of other characters becomes one dash. */
  function ReplaceRuns(s: string): string
    decreases |s|
  {
    if s == "" then ""
    else if IsAlphaNumeric(s[0]) then [s[0]] + ReplaceRuns(s[1..])
    else
      SkipRunShrinks(s[1..]);
      "-" + ReplaceRuns(SkipRun(s[1..]))
  }

  lemma {:induction false} SkipRunShrinks(s: string)
    ensures |SkipRun(s)| <= |s|
    ensures SkipRun(s) == s[|s| - |SkipRun(s)|..]
    ensures SkipRun(s) != "" ==> IsAlphaNumeric(SkipRun(s)[0])
  {
    if s != "" && !IsAlphaNumeric(s[0]) {
      SkipRunShrinks(s[1..]);
    }
  }

  /** The name before it is cut to length: runs replaced, lower case, no dash at the end. */
  function Untruncated(displayName: string): string {
    TrimLast(Lower(ReplaceRuns(displayName)), '-')
  }

  function NormalizeName(displayName: string): string {
    var name := Untruncated(displayName);
    TrimFirst(if |name| > MAX_NAME_LENGTH then name[..MAX_NAME_LENGTH] else name, '-')
  }

  /** `suffix` stands for the first five hexadecimal digits of the SHA-1 of the id. */
  function NormalizeServiceNameWithId(displayName: string, suffix: string): string {
    TrimFirst(NormalizeName(displayName) + "-" + suffix, '-')
  }

  /** Lower case, letter by letter: the 26 letters of ASCII, and no other character. */
  lemma LowerLetterByLetter(c: char)
    ensures var upper, lower := "ABCDEFGHIJKLMNOPQRSTUVWXYZ", "abcdefghijklmnopqrstuvwxyz";
            && |upper| == |lower|
            && (forall i :: 0 <= i < |upper| && c == upper[i] ==> ToLower(c) == lower[i])
            && (c !in upper ==> ToLower(c) == c)
  {
    var upper, lower := "ABCDEFGHIJKLMNOPQRSTUVWXYZ", "abcdefghijklmnopqrstuvwxyz";
    assert forall i :: 0 <= i < |upper| ==> upper[i] as int == 'A' as int + i;
    assert forall i :: 0 <= i < |lower| ==> lower[i] as int == 'a' as int + i;
    if 'A' <= c <= 'Z' {
      assert upper[c as int - 'A' as int] == c;
    }
  }

  /** A short name of letters and digits is only put in lower case, and with lower-case letters it stays as it is. */
  lemma PlainNameStays(name: string)
    requires |name| <= 57 && forall c <- name :: 'a' <= c <= 'z' || 'A' <= c <= 'Z' || '0' <= c <= '9'
    ensures NormalizeName(name) == seq(|name|, i requires 0 <= i < |name| => ToLower(name[i]))
    ensures (forall c <- name :: !('A' <= c <= 'Z')) ==> NormalizeName(name) == name
  {
    PlainRunsStay(name);
    var lower := Lower(name);
    assert forall i :: 0 <= i < |name| ==> name[i] in name;
    assert lower != "" ==> lower[0] != '-' && lower[|lower| - 1] != '-';
    assert (forall c <- name :: !('A' <= c <= 'Z')) ==> lower == name;
  }

  lemma {:induction false} PlainRunsStay(name: string)
    requires forall c <- name :: 'a' <= c <= 'z' || 'A' <= c <= 'Z' || '0' <= c <= '9'
    ensures ReplaceRuns(name) == name
  {
    if name != "" {
      assert name[0] in name && forall c <- name[1..] :: c in name;
      PlainRunsStay(name[1..]);
    }
  }

  // ---------------------------------------------------------------- shape

  predicate NoDoubleDash(s: string) {
    forall i :: 0 < i < |s| && s[i] == '-' ==> s[i - 1] != '-'
  }

  predicate IsSlug(s: string) {
    && (forall c <- s :: IsLowerAlphaNumeric(c) || c == '-')
    && NoDoubleDash(s)
    && !StartsWith(s, '-')
  }

  lemma {:induction false} ReplaceRunsShape(s: string)
    ensures forall c <- ReplaceRuns(s) :: IsAlphaNumeric(c) || c == '-'
    ensures NoDoubleDash(ReplaceRuns(s))
    ensures ReplaceRuns(s) == "" <==> s == ""
    ensures s != "" ==> (StartsWith(ReplaceRuns(s), '-') <==> !IsAlphaNumeric(s[0]))
    decreases |s|
  {
    if s != "" {
      SkipRunShrinks(s[1..]);
      ReplaceRunsShape(if IsAlphaNumeric(s[0]) then s[1..] else SkipRun(s[1..]));
    }
  }

  lemma LowerShape(s: string)
    requires forall c <- s :: IsAlphaNumeric(c) || c == '-'
    ensures forall c <- Lower(s) :: IsLowerAlphaNumeric(c) || c == '-'
    ensures NoDoubleDash(s) ==> NoDoubleDash(Lower(s))
  {
    forall c | c in Lower(s)
      ensures IsLowerAlphaNumeric(c) || c == '-'
    {
      var i :| 0 <= i < |s| && Lower(s)[i] == c;
      assert s[i] in s;
    }
    forall i | 0 <= i < |s|
      ensures Lower(s)[i] == '-' <==> s[i] == '-'
    {
      assert s[i] in s;
    }
  }

  lemma UntruncatedShape(s: string)
    ensures forall c <- Untruncated(s) :: IsLowerAlphaNumeric(c) || c == '-'
    ensures NoDoubleDash(Untruncated(s))
    ensures !EndsWith(Untruncated(s), '-')
  {
    var runs := ReplaceRuns(s);
    ReplaceRunsShape(s);
    LowerShape(runs);
    var lower := Lower(runs);
    if EndsWith(lower, '-') {
      assert Untruncated(s) == lower[..|lower| - 1] && lower[|lower| - 1] == '-';
    }
  }

  /** For every input: at most 57 lower-case letters, digits and single dashes, the first of which is no dash. */
  lemma NormalizeNameShape(displayName: string)
    ensures IsSlug(NormalizeName(displayName))
    ensures |NormalizeName(displayName)| <= MAX_NAME_LENGTH
  {
    UntruncatedShape(displayName);
    var name := Untruncated(displayName);
    var cut := if |name| > MAX_NAME_LENGTH then name[..MAX_NAME_LENGTH] else name;
    assert NoDoubleDash(cut) && forall c <- cut :: c in name;
    if StartsWith(cut, '-') {
      assert NormalizeName(displayName) == cut[1..];
    }
  }

  // ---------------------------------------------------------------- meaning

  /** The maximal runs of letters and digits, in order. */
  function Words(s: string): seq<string>
    decreases |s|
  {
    if s == "" then []
    else if !IsAlphaNumeric(s[0]) then Words(s[1..])
    else
      [FirstWord(s)] + Words(s[|FirstWord(s)|..])
  }

  function FirstWord(s: string): (w: string)
    ensures |w| <= |s|
    ensures s != "" && IsAlphaNumeric(s[0]) ==> w != ""
  {
    if s != "" && IsAlphaNumeric(s[0]) then [s[0]] + FirstWord(s[1..]) else ""
  }

  lemma {:induction false} FirstWordIsMaximal(s: string)
    ensures var w := FirstWord(s);
            && w == s[..|w|] && (forall i :: 0 <= i < |w| ==> IsAlphaNumeric(w[i]))
            && (|w| < |s| ==> !IsAlphaNumeric(s[|w|]))
  {
    if s != "" && IsAlphaNumeric(s[0]) {
      FirstWordIsMaximal(s[1..]);
    }
  }

  lemma {:induction false} WordsSkipRun(s: string)
    ensures Words(SkipRun(s)) == Words(s)
  {
    if s != "" && !IsAlphaNumeric(s[0]) {
      WordsSkipRun(s[1..]);
    }
  }

  lemma {:induction false} ReplaceRunsOfWord(word: string, rest: string)
    requires forall i :: 0 <= i < |word| ==> IsAlphaNumeric(word[i])
    ensures ReplaceRuns(word + rest) == word + ReplaceRuns(rest)
  {
    if word == "" {
      assert word + rest == rest;
    } else {
      assert (word + rest)[1..] == word[1..] + rest;
      ReplaceRunsOfWord(word[1..], rest);
    }
  }

  predicate StartsOutsideWord(s: string) {
    s != "" && !IsAlphaNumeric(s[0])
  }

  /** What is left of the replaced runs once a last dash is dropped. */
  function DashedWords(s: string): string {
    (if StartsOutsideWord(s) && Words(s) != [] then "-" else "") + Join(Words(s), '-')
  }

  /** Replacing the runs and dropping a last dash joins the words with single dashes. */
  lemma {:induction false} ReplaceRunsJoinsWords(s: string)
    ensures TrimLast(ReplaceRuns(s), '-') == DashedWords(s)
    decreases |s|
  {
    if s == "" {
    } else if IsAlphaNumeric(s[0]) {
      var w := FirstWord(s);
      ReplaceRunsJoinsWords(s[|w|..]);
      ReplaceRunsFromWord(s, w, s[|w|..]);
    } else {
      var rest := SkipRun(s[1..]);
      SkipRunShrinks(s[1..]);
      WordsSkipRun(s[1..]);
      ReplaceRunsJoinsWords(rest);
      ReplaceRunsShape(rest);
      assert ReplaceRuns(s) == "-" + ReplaceRuns(rest);
      assert rest != "" ==> ReplaceRuns(rest) != "";
    }
  }

  lemma ReplaceRunsFromWord(s: string, w: string, rest: string)
    requires s != "" && IsAlphaNumeric(s[0])
    requires w == FirstWord(s) && rest == s[|w|..]
    requires TrimLast(ReplaceRuns(rest), '-') == DashedWords(rest)
    ensures TrimLast(ReplaceRuns(s), '-') == DashedWords(s)
  {
    hide ReplaceRuns, TrimLast, FirstWord;
    FirstWordIsMaximal(s);
    assert s == w + rest;
    ReplaceRunsOfWord(w, rest);
    ReplaceRunsShape(rest);
    TrimLastOfConcat(w, ReplaceRuns(rest));
    var tail := Words(rest);
    assert Words(s) == [w] + tail;
    if tail != [] {
      assert ([w] + tail)[1..] == tail;
      assert Join(Words(s), '-') == w + ['-'] + Join(tail, '-');
      assert DashedWords(rest) == ['-'] + Join(tail, '-');
    }
  }

  lemma TrimLastOfConcat(a: string, b: string)
    requires a != "" && !EndsWith(a, '-')
    ensures TrimLast(a + b, '-') == a + TrimLast(b, '-')
  {
    if b == "" {
      assert a + b == a;
    }
  }

  /**
   What a normalised name is: the words of the display name in lower case, joined with single dashes and cut after 57
   characters, or after 56 when the display name starts with another character (the dash it leaves is cut off last).
   */
  lemma NormalizeNameJoinsWords(displayName: string)
    ensures var name := Lower(Join(Words(displayName), '-'));
            var limit := if StartsOutsideWord(displayName) then MAX_NAME_LENGTH - 1 else MAX_NAME_LENGTH;
            NormalizeName(displayName) == if |name| > limit then name[..limit] else name
  {
    var words := Join(Words(displayName), '-');
    UntruncatedWords(displayName);
    if words != "" {
      WordsStart(displayName);
    }
    CutThenTrim(Lower(words), StartsOutsideWord(displayName));
  }

  lemma UntruncatedWords(displayName: string)
    ensures var name := Lower(Join(Words(displayName), '-'));
            Untruncated(displayName) == if StartsOutsideWord(displayName) && name != "" then "-" + name else name
  {
    LowerTrims(ReplaceRuns(displayName));
    ReplaceRunsJoinsWords(displayName);
    if Words(displayName) != [] {
      WordsStart(displayName);
      LowerOfDash(Join(Words(displayName), '-'));
    }
  }

  lemma LowerOfDash(s: string)
    ensures Lower("-" + s) == "-" + Lower(s)
  {
  }

  lemma CutThenTrim(name: string, led: bool)
    requires !StartsWith(name, '-')
    ensures var full := if led && name != "" then "-" + name else name;
            var limit := if led then MAX_NAME_LENGTH - 1 else MAX_NAME_LENGTH;
            TrimFirst(if |full| > MAX_NAME_LENGTH then full[..MAX_NAME_LENGTH] else full, '-')
            == if |name| > limit then name[..limit] else name
  {
  }

  lemma LowerTrims(runs: string)
    ensures Lower(TrimLast(runs, '-')) == TrimLast(Lower(runs), '-')
  {
    if runs != "" {
      assert Lower(runs)[|runs| - 1] == '-' <==> runs[|runs| - 1] == '-';
    }
  }

  lemma {:induction false} WordsStart(s: string)
    requires Words(s) != []
    ensures Join(Words(s), '-') != "" && IsAlphaNumeric(Join(Words(s), '-')[0])
    decreases |s|
  {
    if IsAlphaNumeric(s[0]) {
      FirstWordIsMaximal(s);
    } else {
      WordsStart(s[1..]);
    }
  }

  // ---------------------------------------------------------------- stability

  lemma {:induction false} ReplaceRunsOfSlug(s: string)
    requires forall c <- s :: IsLowerAlphaNumeric(c) || c == '-'
    requires NoDoubleDash(s)
    ensures ReplaceRuns(s) == s
    decreases |s|
  {
    if s != "" {
      var tail := s[1..];
      assert NoDoubleDash(tail) by {
        assert forall i :: 0 <= i < |tail| ==> tail[i] == s[i + 1];
      }
      assert s[0] in s;
      ReplaceRunsOfSlug(tail);
      if s[0] == '-' && tail != "" {
        assert tail[0] in s && s[1] != '-';
        assert SkipRun(tail) == tail;
      }
    }
  }

  /** On a name of the normalised shape only a last dash can still go. */
  lemma NormalizeNameOfSlug(s: string)
    requires IsSlug(s) && |s| <= MAX_NAME_LENGTH
    ensures NormalizeName(s) == TrimLast(s, '-')
  {
    ReplaceRunsOfSlug(s);
    forall i | 0 <= i < |s|
      ensures ToLower(s[i]) == s[i]
    {
      assert s[i] in s;
    }
    assert Lower(s) == s;
  }

  /** Where the cut falls right behind a dash: exactly then the result is not a normal form. */
  predicate CutBehindDash(displayName: string) {
    var name := Untruncated(displayName);
    |name| > MAX_NAME_LENGTH && name[MAX_NAME_LENGTH - 1] == '-'
  }

  lemma NormalizeNameEndsInDash(displayName: string)
    ensures EndsWith(NormalizeName(displayName), '-') <==> CutBehindDash(displayName)
  {
    UntruncatedShape(displayName);
    var name := Untruncated(displayName);
    if |name| > MAX_NAME_LENGTH {
      var cut := name[..MAX_NAME_LENGTH];
      assert NormalizeName(displayName) == if StartsWith(cut, '-') then cut[1..] else cut;
    }
  }

  /** Normalising is idempotent exactly on the names that are not cut behind a dash, and stable after two passes. */
  lemma NormalizeNameStability(displayName: string)
    ensures var once := NormalizeName(displayName);
            && (NormalizeName(once) == once <==> !CutBehindDash(displayName))
            && NormalizeName(NormalizeName(once)) == NormalizeName(once)
  {
    var once := NormalizeName(displayName);
    NormalizeNameShape(displayName);
    NormalizeNameEndsInDash(displayName);
    NormalizeNameOfSlug(once);
    var twice := NormalizeName(once);
    NormalizeNameShape(once);
    NormalizeNameOfSlug(twice);
    if EndsWith(once, '-') {
      assert twice == once[..|once| - 1] && once[|once| - 1] == '-';
      assert !EndsWith(twice, '-');
    }
  }

  /** A name that shows it: 56 letters, a dash and one more letter keep the dash, a second pass drops it. */
  lemma NotIdempotent()
    ensures exists s :: NormalizeName(NormalizeName(s)) != NormalizeName(s)
  {
    var letters := seq(56, _ => 'a');
    var s := letters + "-a";
    ReplaceRunsOfSlug(s);
    assert Lower(s) == s;
    assert Untruncated(s)[56] == '-';
    NormalizeNameStability(s);
  }

  /** With the suffix the name is never empty, fits the 63 characters of a Kubernetes name and starts with no dash. */
  lemma ServiceNameWithIdShape(displayName: string, suffix: string)
    requires |suffix| == 5 && forall c <- suffix :: '0' <= c <= '9' || 'a' <= c <= 'f'
    ensures var name := NormalizeServiceNameWithId(displayName, suffix);
            && 0 < |name| <= 63 && !StartsWith(name, '-') && name[|name| - 5..] == suffix
            && (forall c <- name :: IsLowerAlphaNumeric(c) || c == '-')
            && (NoDoubleDash(name) <==> !CutBehindDash(displayName))
  {
    NormalizeNameShape(displayName);
    NormalizeNameEndsInDash(displayName);
    var base := NormalizeName(displayName);
    assert base + "-" + suffix == base + ("-" + suffix);
    assert forall i :: 0 <= i < |suffix| ==> suffix[i] in suffix;
    if base == "" {
      assert NormalizeServiceNameWithId(displayName, suffix) == suffix;
    } else {
      assert base[0] in base && base[0] != '-';
      SuffixedSlug(base, suffix);
    }
  }

  lemma SuffixedSlug(base: string, suffix: string)
    requires base != "" && IsSlug(base)
    requires forall c <- suffix :: '0' <= c <= '9' || 'a' <= c <= 'f'
    ensures var name := base + ("-" + suffix);
            && (forall c <- name :: IsLowerAlphaNumeric(c) || c == '-')
            && (NoDoubleDash(name) <==> !EndsWith(base, '-'))
  {
    var name := base + ("-" + suffix);
    var n := |base|;
    assert name[n] == '-';
    assert forall i :: 0 <= i < n ==> name[i] == base[i] && name[i] in base;
    assert forall i :: n < i < |name| ==> name[i] == suffix[i - n - 1] && name[i] in suffix;
    assert base[n - 1] == name[n - 1];
  }
}
