/** The few operations of Go's strings package that the components rely on, over byte strings. */
module Text {

  predicate StartsWith(s: string, c: char) {
    s != "" && s[0] == c
  }

  predicate EndsWith(s: string, c: char) {
    s != "" && s[|s| - 1] == c
  }

  /** strings.TrimPrefix with a one-byte prefix. */
  function TrimFirst(s: string, c: char): string {
    if StartsWith(s, c) then s[1..] else s
  }

  /** strings.TrimSuffix with a one-byte suffix. */
  function TrimLast(s: string, c: char): string {
    if EndsWith(s, c) then s[..|s| - 1] else s
  }

  /** strings.Split with a one-byte separator: an empty string has one (empty) part. */
  function Split(s: string, sep: char): (parts: seq<string>)
    ensures |parts| > 0
    ensures forall p <- parts :: sep !in p
    ensures Join(parts, sep) == s
  {
    if s == "" then [""]
    else
      var rest := Split(s[1..], sep);
      if s[0] == sep then [""] + rest else [[s[0]] + rest[0]] + rest[1..]
  }

  /** strings.Join with a one-byte separator. */
  function Join(parts: seq<string>, sep: char): string {
    if parts == [] then ""
    else if |parts| == 1 then parts[0]
    else parts[0] + [sep] + Join(parts[1..], sep)
  }

  /** Splitting undoes joining, as long as there is a part and no part holds the separator. */
  lemma {:induction false} SplitOfJoin(parts: seq<string>, sep: char)
    requires parts != []
    requires forall p <- parts :: sep !in p
    ensures Split(Join(parts, sep), sep) == parts
  {
    SplitPart(parts[0], sep);
    if |parts| > 1 {
      SplitOfJoin(parts[1..], sep);
      SplitFirst(parts[0], Join(parts[1..], sep), sep);
      assert parts[0] + [sep] + Join(parts[1..], sep) == parts[0] + ([sep] + Join(parts[1..], sep));
    }
  }

  lemma {:induction false} SplitPart(part: string, sep: char)
    requires sep !in part
    ensures Split(part, sep) == [part]
  {
    if part != "" {
      SplitPart(part[1..], sep);
    }
  }

  lemma {:induction false} SplitFirst(part: string, rest: string, sep: char)
    requires sep !in part
    ensures Split(part + ([sep] + rest), sep) == [part] + Split(rest, sep)
  {
    var s := part + ([sep] + rest);
    if part == "" {
      assert s[1..] == rest;
    } else {
      assert s[1..] == part[1..] + ([sep] + rest);
      SplitFirst(part[1..], rest, sep);
      var tail := Split(s[1..], sep);
      assert tail == [part[1..]] + Split(rest, sep);
      assert [s[0]] + tail[0] == part && tail[1..] == Split(rest, sep);
    }
  }

  lemma {:induction false} JoinConcat(a: seq<string>, b: seq<string>, sep: char)
    requires a != [] && b != []
    ensures Join(a + b, sep) == Join(a, sep) + [sep] + Join(b, sep)
  {
    if |a| == 1 {
      assert (a + b)[1..] == b;
    } else {
      assert (a + b)[1..] == a[1..] + b;
      JoinConcat(a[1..], b, sep);
    }
  }

  lemma {:induction false} JoinAvoids(parts: seq<string>, sep: char, c: char)
    requires c != sep
    requires forall p <- parts :: c !in p
    ensures c !in Join(parts, sep)
  {
    if |parts| > 1 {
      JoinAvoids(parts[1..], sep, c);
    }
  }

  /** Splitting two texts with a separator between them splits each. */
  lemma SplitOfConcat(a: string, b: string, sep: char)
    ensures Split(a + [sep] + b, sep) == Split(a, sep) + Split(b, sep)
  {
    var parts := Split(a, sep) + Split(b, sep);
    JoinConcat(Split(a, sep), Split(b, sep), sep);
    SplitOfJoin(parts, sep);
  }

  /** strings.Trim with a one-byte cutset. */
  function TrimLeft(s: string, c: char): string {
    if s != "" && s[0] == c then TrimLeft(s[1..], c) else s
  }

  function TrimRight(s: string, c: char): string {
    if s != "" && s[|s| - 1] == c then TrimRight(s[..|s| - 1], c) else s
  }

  function Trim(s: string, c: char): string {
    TrimRight(TrimLeft(s, c), c)
  }

  lemma TrimLeftOnce(s: string, c: char)
    ensures TrimLeft([c] + s, c) == TrimLeft(s, c)
  {
    assert ([c] + s)[1..] == s;
  }

  lemma TrimRightOnce(s: string, c: char)
    ensures TrimRight(s + [c], c) == TrimRight(s, c)
  {
    assert (s + [c])[..|s|] == s;
  }

  /**
   One separator in front, and perhaps one behind, are all that is trimmed from a text that neither starts nor ends
   so.
   */
  lemma TrimBoth(s: string, c: char)
    requires s != "" && !StartsWith(s, c) && !EndsWith(s, c)
    ensures Trim([c] + s, c) == s
    ensures Trim([c] + s + [c], c) == s
  {
    TrimLeftOnce(s, c);
    assert [c] + s + [c] == [c] + (s + [c]);
    TrimLeftOnce(s + [c], c);
    TrimRightOnce(s, c);
  }

  lemma {:induction false} TrimLeftSplits(s: string, c: char)
    ensures |Split(TrimLeft(s, c), c)| <= |Split(s, c)|
  {
    if StartsWith(s, c) {
      TrimLeftSplits(s[1..], c);
    }
  }

  lemma {:induction false} TrimRightSplits(s: string, c: char)
    ensures |Split(TrimRight(s, c), c)| <= |Split(s, c)|
  {
    if EndsWith(s, c) {
      var front := s[..|s| - 1];
      TrimRightSplits(front, c);
      SplitOfConcat(front, "", c);
      assert s == front + [c] + "";
    }
  }
}
