/**
 * The player-props handler (`/api/props.js`) without its HTTP plumbing: clean the player names,
 * bucket every quote by market, player and line, then finalise each market's best three lines.
 */
module Props {
  import opened Wrappers
  import opened Feed
  import opened Config
  import opened OddsMath
  import opened Sorting
  import Arith

  // ---------- Player names ----------

  /** The characters that JavaScript's `\s` and `String.prototype.trim` treat as white space. */
  predicate IsSpace(c: char)
  {
    c == ' ' || c == '\t' || c == '\n' || c == '\r' || c == '\U{000B}' || c == '\U{000C}'
    || c == '\U{00A0}' || c == '\U{1680}' || ('\U{2000}' <= c <= '\U{200A}')
    || c == '\U{2028}' || c == '\U{2029}' || c == '\U{202F}' || c == '\U{205F}'
    || c == '\U{3000}' || c == '\U{FEFF}'
  }

  /** The text with its white space taken out, so that two texts can be compared word for word. */
  function Squeeze(s: string): string
  {
    if s == [] then [] else (if IsSpace(s[0]) then [] else [s[0]]) + Squeeze(s[1..])
  }

  /** Drops the white space at the front. */
  function DropSpaces(s: string): (r: string)
    ensures |r| <= |s| && r == s[|s| - |r|..]
    ensures r == [] || !IsSpace(r[0])
  {
    if s != [] && IsSpace(s[0]) then DropSpaces(s[1..]) else s
  }

  /** Only white space is dropped. */
  lemma {:induction false} DropSpacesPrefix(s: string)
    ensures AllSpaces(s[..|s| - |DropSpaces(s)|])
  {
    if s != [] && IsSpace(s[0]) {
      DropSpacesPrefix(s[1..]);
      var m := |s| - |DropSpaces(s)|;
      var t := s[1..][..m - 1];
      assert s[..m] == [s[0]] + t;
      assert forall k :: 0 < k < m ==> s[..m][k] == t[k - 1];
    }
  }

  /** Every character is white space. */
  predicate AllSpaces(s: string)
  {
    forall k :: 0 <= k < |s| ==> IsSpace(s[k])
  }

  /** Dropping the white space at the front keeps every other character. */
  lemma {:induction false} DropSpacesSqueeze(s: string)
    ensures Squeeze(DropSpaces(s)) == Squeeze(s)
  {
    if s != [] && IsSpace(s[0]) {
      DropSpacesSqueeze(s[1..]);
    }
  }

  /** `replace(/\s+/g, " ")`: every run of white space becomes one plain space. */
  function CollapseSpaces(s: string): (r: string)
    ensures s == [] <==> r == []
    ensures s != [] ==> (IsSpace(r[0]) <==> IsSpace(s[0]))
    decreases |s|
  {
    if s == [] then []
    else if IsSpace(s[0]) then [' '] + CollapseSpaces(DropSpaces(s[1..]))
    else [s[0]] + CollapseSpaces(s[1..])
  }

  /** The only white space is the plain space. */
  predicate PlainSpaces(s: string)
  {
    forall c :: c in s && IsSpace(c) ==> c == ' '
  }

  /** No two white-space characters are adjacent. */
  predicate SingleSpaced(s: string)
  {
    forall i :: 0 <= i < |s| - 1 ==> !(IsSpace(s[i]) && IsSpace(s[i + 1]))
  }

  /** Collapsing leaves only plain spaces. */
  lemma {:induction false} CollapsePlain(s: string)
    ensures PlainSpaces(CollapseSpaces(s))
    decreases |s|
  {
    if s != [] {
      var t := if IsSpace(s[0]) then DropSpaces(s[1..]) else s[1..];
      CollapsePlain(t);
      assert CollapseSpaces(s) == [CollapseSpaces(s)[0]] + CollapseSpaces(t);
    }
  }

  /** Collapsing leaves no two white-space characters side by side. */
  lemma {:induction false} CollapseSingle(s: string)
    ensures SingleSpaced(CollapseSpaces(s))
    decreases |s|
  {
    if s != [] {
      var t := if IsSpace(s[0]) then DropSpaces(s[1..]) else s[1..];
      var rest := CollapseSpaces(t);
      CollapseSingle(t);
      var r := CollapseSpaces(s);
      assert forall i :: 0 < i < |r| ==> r[i] == rest[i - 1];
      assert rest != [] && IsSpace(r[0]) ==> !IsSpace(rest[0]);
    }
  }

  /** Collapsing keeps every character that is not white space, in order. */
  lemma {:induction false} CollapseSqueeze(s: string)
    ensures Squeeze(CollapseSpaces(s)) == Squeeze(s)
    decreases |s|
  {
    if s != [] {
      var t := if IsSpace(s[0]) then DropSpaces(s[1..]) else s[1..];
      var rest := CollapseSpaces(t);
      CollapseSqueeze(t);
      if IsSpace(s[0]) {
        DropSpacesSqueeze(s[1..]);
      }
      var r := CollapseSpaces(s);
      assert r[1..] == rest;
    }
  }

  /** Collapsing leaves single plain spaces and keeps every other character, in order. */
  lemma CollapseSpacesShape(s: string)
    ensures PlainSpaces(CollapseSpaces(s)) && SingleSpaced(CollapseSpaces(s))
    ensures Squeeze(CollapseSpaces(s)) == Squeeze(s)
  {
    CollapsePlain(s);
    CollapseSingle(s);
    CollapseSqueeze(s);
  }

  /**
   * Reference reading of `replace(/\s+/g, " ")`, one character at a time: a white-space character
   * becomes a plain space when it starts a run (the previous character was not white space) and
   * vanishes otherwise; every other character is kept.
   */
  function ScanSpaces(s: string, afterSpace: bool): string
  {
    if s == [] then []
    else (if IsSpace(s[0]) then (if afterSpace then [] else [' ']) else [s[0]]) + ScanSpaces(s[1..], IsSpace(s[0]))
  }

  /** The number of white-space runs in `s`, counting a run at the front only when `afterSpace` is false. */
  function RunsAfter(s: string, afterSpace: bool): nat
  {
    if s == [] then 0
    else (if IsSpace(s[0]) && !afterSpace then 1 else 0) + RunsAfter(s[1..], IsSpace(s[0]))
  }

  function Runs(s: string): nat
  {
    RunsAfter(s, false)
  }

  /** After white space, the white space that follows contributes nothing. */
  lemma {:induction false} ScanSkipsSpaces(s: string)
    ensures ScanSpaces(s, true) == ScanSpaces(DropSpaces(s), true)
  {
    if s != [] && IsSpace(s[0]) {
      ScanSkipsSpaces(s[1..]);
    }
  }

  /** The skip-a-run definition and the character-by-character reading agree. */
  lemma {:induction false} CollapseIsScan(s: string, afterSpace: bool)
    requires !afterSpace || s == [] || !IsSpace(s[0])
    ensures CollapseSpaces(s) == ScanSpaces(s, afterSpace)
    decreases |s|
  {
    if s != [] {
      if IsSpace(s[0]) {
        var d := DropSpaces(s[1..]);
        CollapseIsScan(d, true);
        ScanSkipsSpaces(s[1..]);
      } else {
        CollapseIsScan(s[1..], false);
      }
    }
  }

  /** The scan turns every run into exactly one space, so it keeps the number of runs. */
  lemma {:induction false} ScanKeepsRuns(s: string, afterSpace: bool)
    ensures RunsAfter(ScanSpaces(s, afterSpace), afterSpace) == RunsAfter(s, afterSpace)
  {
    if s != [] {
      var rest := ScanSpaces(s[1..], IsSpace(s[0]));
      ScanKeepsRuns(s[1..], IsSpace(s[0]));
      if IsSpace(s[0]) && !afterSpace {
        assert ScanSpaces(s, afterSpace) == [' '] + rest;
        assert ([' '] + rest)[1..] == rest;
      } else if IsSpace(s[0]) {
        assert ScanSpaces(s, afterSpace) == rest;
      } else {
        assert ScanSpaces(s, afterSpace) == [s[0]] + rest;
        assert ([s[0]] + rest)[1..] == rest;
      }
    }
  }

  /** A scan after white space that yields nothing read only white space. */
  lemma {:induction false} EmptyScanIsSpaces(s: string)
    requires ScanSpaces(s, true) == []
    ensures AllSpaces(s)
  {
    if s != [] {
      EmptyScanIsSpaces(s[1..]);
      assert forall k :: 0 < k < |s| ==> s[k] == s[1..][k - 1];
    }
  }

  /** A non-empty scan ends in white space exactly when its input does. */
  lemma {:induction false} ScanEnds(s: string, afterSpace: bool)
    requires ScanSpaces(s, afterSpace) != []
    ensures s != []
    ensures IsSpace(ScanSpaces(s, afterSpace)[|ScanSpaces(s, afterSpace)| - 1]) <==> IsSpace(s[|s| - 1])
  {
    var head: string := if IsSpace(s[0]) then (if afterSpace then [] else [' ']) else [s[0]];
    var rest := ScanSpaces(s[1..], IsSpace(s[0]));
    var r := ScanSpaces(s, afterSpace);
    assert r == head + rest;
    if rest != [] {
      ScanEnds(s[1..], IsSpace(s[0]));
      assert r[|r| - 1] == rest[|rest| - 1];
      assert s[|s| - 1] == s[1..][|s[1..]| - 1];
    } else if |s| > 1 {
      EmptyScanIsSpaces(s[1..]);
      assert s[|s| - 1] == s[1..][|s[1..]| - 1];
    }
  }

  /**
   * Every white-space run becomes exactly one space: the number of runs is kept, and the text
   * starts and ends with white space exactly when the input does.
   */
  lemma CollapseKeepsRuns(s: string)
    ensures Runs(CollapseSpaces(s)) == Runs(s)
    ensures s != [] ==> CollapseSpaces(s) != []
    ensures s != [] ==> (IsSpace(CollapseSpaces(s)[|CollapseSpaces(s)| - 1]) <==> IsSpace(s[|s| - 1]))
  {
    CollapseIsScan(s, false);
    ScanKeepsRuns(s, false);
    if s != [] {
      ScanEnds(s, false);
    }
  }

  /**
   * The length of the match of `/ Jr\.?| III| II| IV| V/` at the front of `s`, trying the
   * alternatives in order (the optional dot greedily), or 0 when none matches.
   */
  function SuffixAt(s: string): (n: nat)
    ensures n <= |s|
  {
    if |s| >= 4 && s[..4] == " Jr." then 4
    else if |s| >= 3 && s[..3] == " Jr" then 3
    else if |s| >= 4 && s[..4] == " III" then 4
    else if |s| >= 3 && s[..3] == " II" then 3
    else if |s| >= 3 && s[..3] == " IV" then 3
    else if |s| >= 2 && s[..2] == " V" then 2
    else 0
  }

  /**
   * `replace(/ Jr\.?| III| II| IV| V/g, "")`: every leftmost match is removed and the scan goes
   * on after it. Nothing is added: every character of the result comes from the input.
   */
  function StripSuffixes(s: string): (r: string)
    ensures |r| <= |s|
    decreases |s|
  {
    if s == [] then []
    else if SuffixAt(s) > 0 then StripSuffixes(s[SuffixAt(s)..])
    else [s[0]] + StripSuffixes(s[1..])
  }

  /** Every character of the stripped text comes from the input. */
  lemma {:induction false} StripKeepsChars(s: string)
    ensures forall c :: c in StripSuffixes(s) ==> c in s
    decreases |s|
  {
    if s != [] {
      var k := if SuffixAt(s) > 0 then SuffixAt(s) else 1;
      StripKeepsChars(s[k..]);
      forall c | c in s[k..] ensures c in s {
        var j :| 0 <= j < |s[k..]| && s[k..][j] == c;
        assert s[k + j] == c;
      }
    }
  }

  /** `r` is `s` with some of its characters removed: what is left keeps its order. */
  predicate Subsequence(r: string, s: string)
  {
    r == [] || (s != [] && ((r[0] == s[0] && Subsequence(r[1..], s[1..])) || Subsequence(r, s[1..])))
  }

  /** Stripping only removes characters: the result is a subsequence of the input. */
  lemma {:induction false} StripIsSubsequence(s: string)
    ensures Subsequence(StripSuffixes(s), s)
    decreases |s|
  {
    if s != [] {
      if SuffixAt(s) > 0 {
        StripIsSubsequence(s[SuffixAt(s)..]);
        DropFrontKeepsSubsequence(StripSuffixes(s), s, SuffixAt(s));
      } else {
        StripIsSubsequence(s[1..]);
        assert StripSuffixes(s)[1..] == StripSuffixes(s[1..]);
      }
    }
  }

  /** A subsequence of a suffix of `s` is a subsequence of `s`. */
  lemma {:induction false} DropFrontKeepsSubsequence(r: string, s: string, k: nat)
    requires k <= |s| && Subsequence(r, s[k..])
    ensures Subsequence(r, s)
    decreases k
  {
    if k > 0 {
      assert s[1..][k - 1..] == s[k..];
      DropFrontKeepsSubsequence(r, s[1..], k - 1);
    }
  }

  /** Drops the white space at the end. */
  function DropTrailingSpaces(s: string): (r: string)
    ensures |r| <= |s| && r == s[..|r|]
    ensures r == [] || !IsSpace(r[|r| - 1])
  {
    if s != [] && IsSpace(s[|s| - 1]) then DropTrailingSpaces(s[..|s| - 1]) else s
  }

  /** Only white space is dropped at the end. */
  lemma {:induction false} DropTrailingSuffix(s: string)
    ensures AllSpaces(s[|DropTrailingSpaces(s)|..])
  {
    if s != [] && IsSpace(s[|s| - 1]) {
      var n := |s| - 1;
      DropTrailingSuffix(s[..n]);
      var m := |DropTrailingSpaces(s)|;
      var t := s[..n][m..];
      assert s[m..] == t + [s[n]];
      assert forall k :: 0 <= k < |t| ==> s[m..][k] == t[k];
    }
  }

  /** `trim()`: drops the white space at both ends. */
  function Trim(s: string): (r: string)
    ensures |r| <= |s|
  {
    var r := DropTrailingSpaces(DropSpaces(s));
    assert r == DropSpaces(s)[..|r|];
    r
  }

  /** Trimming drops only white space, before and after the text it keeps. */
  lemma TrimDropsOnlySpaces(s: string) returns (before: string, after: string)
    ensures s == before + Trim(s) + after
    ensures AllSpaces(before) && AllSpaces(after)
  {
    var front := DropSpaces(s);
    var r := DropTrailingSpaces(front);
    before := s[..|s| - |front|];
    after := front[|r|..];
    DropSpacesPrefix(s);
    DropTrailingSuffix(front);
    SplitAround(s, |s| - |front|, front, r);
  }

  /** A prefix `r` of the suffix of `s` at `i` splits `s` into three. */
  lemma SplitAround<T>(s: seq<T>, i: nat, front: seq<T>, r: seq<T>)
    requires i <= |s| && front == s[i..] && |r| <= |front| && r == front[..|r|]
    ensures s == s[..i] + r + front[|r|..]
  {
    assert s == s[..i] + front;
    assert front == r + front[|r|..];
  }

  /** Trimmed text starts and ends with a character that is not white space, and all come from the input. */
  lemma TrimShape(s: string)
    ensures Trim(s) == [] || (!IsSpace(Trim(s)[0]) && !IsSpace(Trim(s)[|Trim(s)| - 1]))
    ensures forall c :: c in Trim(s) ==> c in s
  {
    var before, after := TrimDropsOnlySpaces(s);
  }

  /** Trimmed text whose only white space is the plain space. */
  predicate Tidy(s: string)
  {
    (s == [] || (!IsSpace(s[0]) && !IsSpace(s[|s| - 1]))) && PlainSpaces(s)
  }

  /**
   * `normalizePlayer`: `undefined` stays `undefined`; a name has its white space collapsed, the
   * suffixes removed and is trimmed.
   */
  function NormalizePlayer(name: Option<string>): (r: Option<string>)
    ensures r.None? <==> name.None?
  {
    match name
    case None => None
    case Some(n) => Some(Trim(StripSuffixes(CollapseSpaces(n))))
  }

  /** A normalised name is tidy. */
  lemma NormalizedIsTidy(name: string)
    ensures Tidy(NormalizePlayer(Some(name)).value)
  {
    var c := CollapseSpaces(name);
    var t := StripSuffixes(c);
    CollapsePlain(name);
    StripKeepsChars(c);
    TrimShape(t);
  }

  /** A tidy name with single spaces and none of the removed suffixes anywhere. */
  predicate CleanName(s: string)
  {
    Tidy(s) && SingleSpaced(s) && forall i :: 0 <= i < |s| ==> SuffixAt(s[i..]) == 0
  }

  /** A clean name is left as it is. */
  lemma NormalizeKeepsCleanNames(n: string)
    requires CleanName(n)
    ensures NormalizePlayer(Some(n)) == Some(n)
  {
    CollapseKeeps(n);
    StripKeeps(n);
  }

  lemma {:induction false} CollapseKeeps(s: string)
    requires PlainSpaces(s) && SingleSpaced(s)
    ensures CollapseSpaces(s) == s
  {
    if s != [] {
      var t := s[1..];
      assert s == [s[0]] + t;
      assert PlainSpaces(t) by {
        forall c | c in t ensures c in s {
          var k :| 0 <= k < |t| && t[k] == c;
          assert s[k + 1] == c;
        }
      }
      assert SingleSpaced(t) by {
        forall k | 0 <= k < |t| - 1 ensures !(IsSpace(t[k]) && IsSpace(t[k + 1])) {
          assert t[k] == s[k + 1] && t[k + 1] == s[k + 2];
        }
      }
      CollapseKeeps(t);
      if IsSpace(s[0]) {
        assert s[0] in s;
        assert t != [] ==> t[0] == s[1];
        assert DropSpaces(t) == t;
      }
    }
  }

  lemma {:induction false} StripKeeps(s: string)
    requires forall i :: 0 <= i < |s| ==> SuffixAt(s[i..]) == 0
    ensures StripSuffixes(s) == s
  {
    if s != [] {
      assert s[0..] == s;
      var t := s[1..];
      forall i | 0 <= i < |t| ensures SuffixAt(t[i..]) == 0 {
        assert t[i..] == s[i + 1..];
      }
      StripKeeps(t);
    }
  }

  /** Each alternative, read on its own, is matched whole. */
  lemma SuffixWhole(x: string)
    requires x in [" Jr.", " Jr", " III", " II", " IV", " V"]
    ensures SuffixAt(x) == |x|
  {
    assert " Jr."[..4] == " Jr." && " Jr"[..3] == " Jr";
    assert " III"[..4] == " III" && " III"[..3][2] != " Jr"[2];
    assert " II"[..3] == " II" && " II"[..3][2] != " Jr"[2];
    assert " IV"[..3] == " IV" && " IV"[..3][2] != " Jr"[2] && " IV"[..3][2] != " II"[2];
    assert " V"[..2] == " V";
  }

  /**
   * No match starts inside a text that has none and runs on into an appended suffix: every
   * alternative has its only space at the front, and the suffix starts with one.
   */
  lemma NoMatchAcross(n: string, x: string)
    requires n != [] && SuffixAt(n) == 0
    requires x != [] && x[0] == ' '
    ensures SuffixAt(n + x) == 0
  {
    var s := n + x;
    assert s[|n|] == ' ';
    assert forall k :: 0 <= k < |n| ==> s[k] == n[k];
    if |n| >= 4 {
      assert s[..4] == n[..4] && s[..3] == n[..3] && s[..2] == n[..2];
    } else if |n| == 3 {
      assert s[..3] == n[..3] && s[..2] == n[..2];
      assert s[3] == ' ';
    } else if |n| == 2 {
      assert s[..2] == n[..2];
      assert s[2] == ' ';
    } else {
      assert s[1] == ' ';
    }
  }

  /** A name with no match anywhere, followed by one generational suffix, strips back to the name. */
  lemma StripsAppendedSuffix(n: string, x: string)
    requires forall i :: 0 <= i < |n| ==> SuffixAt(n[i..]) == 0
    requires x in [" Jr.", " Jr", " III", " II", " IV", " V"]
    ensures StripSuffixes(n + x) == n
  {
    SuffixWhole(x);
    assert x[|x|..] == [];
    StripsVanishingTail(n, x);
  }

  /** Appending a tail that starts with a space and strips to nothing leaves a match-free name as it is. */
  lemma {:induction false} StripsVanishingTail(n: string, x: string)
    requires forall i :: 0 <= i < |n| ==> SuffixAt(n[i..]) == 0
    requires x != [] && x[0] == ' ' && StripSuffixes(x) == []
    ensures StripSuffixes(n + x) == n
  {
    if n == [] {
      assert n + x == x;
    } else {
      NoMatchStep(n);
      NoMatchAcross(n, x);
      StripsVanishingTail(n[1..], x);
      StripKeepsFirst(n + x);
      TailOfConcat(n, x);
      assert [n[0]] + n[1..] == n;
    }
  }

  /** A match-free text has no match at its front, and its tail is match-free. */
  lemma NoMatchStep(n: string)
    requires n != [] && forall i :: 0 <= i < |n| ==> SuffixAt(n[i..]) == 0
    ensures SuffixAt(n) == 0
    ensures forall i :: 0 <= i < |n[1..]| ==> SuffixAt(n[1..][i..]) == 0
  {
    assert n[0..] == n;
    forall i | 0 <= i < |n[1..]| ensures SuffixAt(n[1..][i..]) == 0 {
      assert n[1..][i..] == n[i + 1..];
    }
  }

  /** With no match at the front, the first character is kept and the scan goes on after it. */
  lemma StripKeepsFirst(s: string)
    requires s != [] && SuffixAt(s) == 0
    ensures StripSuffixes(s) == [s[0]] + StripSuffixes(s[1..])
  {
  }

  /** The generational suffixes are removed together with the space before them. */
  lemma SuffixExamples()
    ensures StripSuffixes(" Jr.") == [] && StripSuffixes(" III") == []
    ensures StripSuffixes(" II") == [] && StripSuffixes(" IV") == []
  {
    assert " Jr."[..4] == " Jr.";
    assert " III"[..4] == " III" && " III"[..3][2] != " Jr"[2];
    assert " II"[..3] == " II" && " II"[..3][2] != " Jr"[2];
    assert " IV"[..3] == " IV" && " IV"[..3][2] != " Jr"[2] && " IV"[..3][2] != " II"[2];
  }

  /**
   * The expression is not anchored at the end of the name: a space followed by a capital V is
   * removed anywhere, so a surname starting with V loses its initial.
   */
  lemma SurnameInitialV()
    ensures StripSuffixes(" Vo") == "o"
  {
    assert " Vo"[..2] == " V";
    assert " Vo"[..3][1] != " Jr"[1] && " Vo"[..3][1] != " II"[1] && " Vo"[..3][1] != " IV"[1];
    assert " Vo"[2..] == "o";
    assert "o"[1..] == [];
  }

  // ---------- Sides ----------

  /** `toLowerCase` on the ASCII letters. */
  function LowerChar(c: char): char
  {
    if 'A' <= c <= 'Z' then (c as int + 32) as char else c
  }

  function Lower(s: string): (r: string)
    ensures |r| == |s| && forall i :: 0 <= i < |s| ==> r[i] == LowerChar(s[i])
    ensures forall i :: 0 <= i < |r| ==> !('A' <= r[i] <= 'Z')
    ensures forall i :: 0 <= i < |s| && !('A' <= s[i] <= 'Z') ==> r[i] == s[i]
  {
    seq(|s|, i requires 0 <= i < |s| => LowerChar(s[i]))
  }

  /** Lower-casing twice is lower-casing once. */
  lemma LowerIdempotent(s: string)
    ensures Lower(Lower(s)) == Lower(s)
  {
    var r := Lower(s);
    assert forall i :: 0 <= i < |r| ==> Lower(r)[i] == r[i];
  }

  /** `t` occurs in `s` at position `i`. */
  predicate OccursAt(s: string, t: string, i: nat)
  {
    i + |t| <= |s| && s[i..i + |t|] == t
  }

  /** `s.includes(t)` */
  function Contains(s: string, t: string): bool
    decreases |s|
  {
    if |s| < |t| then false
    else if s[..|t|] == t then true
    else Contains(s[1..], t)
  }

  /** `Contains` holds exactly when `t` occurs somewhere in `s`. */
  lemma {:induction false} ContainsMeaning(s: string, t: string)
    ensures Contains(s, t) <==> exists i: nat :: OccursAt(s, t, i)
    decreases |s|
  {
    if |s| >= |t| {
      if s[..|t|] == t {
        assert OccursAt(s, t, 0);
      } else {
        ContainsMeaning(s[1..], t);
        OccursShift(s, t);
        assert !OccursAt(s, t, 0);
        assert forall i: nat :: OccursAt(s, t, i) ==> i > 0 && OccursAt(s[1..], t, i - 1);
      }
    }
  }

  lemma OccursShift(s: string, t: string)
    requires s != []
    ensures forall i: nat :: OccursAt(s, t, i + 1) <==> OccursAt(s[1..], t, i)
  {
    forall i: nat ensures OccursAt(s, t, i + 1) <==> OccursAt(s[1..], t, i) {
      if i + 1 + |t| <= |s| {
        var x, y := s[i + 1..i + 1 + |t|], s[1..][i..i + |t|];
        forall k | 0 <= k < |t| ensures x[k] == y[k] {
          assert x[k] == s[i + 1 + k] == y[k];
        }
        assert x == y;
      }
    }
  }

  /** `o.name.toLowerCase().includes("over")`: the outcome goes on the over side, otherwise on the under side. */
  function IsOverName(name: string): (over: bool)
    ensures over <==> exists i: nat :: OccursAt(Lower(name), "over", i)
  {
    ContainsMeaning(Lower(name), "over");
    Contains(Lower(name), "over")
  }

  /** "Over" is an over; "Under" is not, and neither is "Yes" (every other name counts as under). */
  lemma SideExamples()
    ensures IsOverName("Over")
    ensures !IsOverName("Under")
    ensures !IsOverName("Yes")
  {
    assert Lower("Over") == "over";
    assert OccursAt(Lower("Over"), "over", 0);
    var u := Lower("Under");
    assert u == "under";
    ContainsMeaning(u, "over");
    assert u[0..4][0] != "over"[0] && u[1..5][0] != "over"[0];
    assert forall i: nat :: OccursAt(u, "over", i) ==> i <= 1;
  }

  // ---------- Bucketing ----------

  /** The line key `${player}|${point}`: an absent player is spelled `undefined`. */
  datatype LineKey = LineKey(player: string, point: Option<real>)

  function KeyOf(player: Option<string>, point: Option<real>): (k: LineKey)
    ensures k.point == point
    ensures k.player == if player.Some? then player.value else "undefined"
  {
    LineKey(if player.Some? then player.value else "undefined", point)
  }

  /** Two quotes share a line exactly when their points agree and their players agree or are `undefined` and "undefined". */
  lemma KeyOfCollisions(a: Option<string>, p: Option<real>, b: Option<string>, q: Option<real>)
    ensures KeyOf(a, p) == KeyOf(b, q) <==>
      p == q && (a == b || {a, b} == {None, Some("undefined")})
  {
  }

  /** One line of one market: `{ player, point, over: [], under: [] }` under its key. */
  datatype PropLine = PropLine(key: LineKey, player: Option<string>, point: Option<real>,
                               over: seq<PricedQuote>, under: seq<PricedQuote>)

  /** The lines of every market key, each market's lines in the order their keys first appeared. */
  type Output = map<string, seq<PropLine>>

  /** `output[m.key][key]`: where the line with that key is. */
  function FindLine(lines: seq<PropLine>, key: LineKey): (r: Option<nat>)
    ensures r.Some? ==> r.value < |lines| && lines[r.value].key == key
    ensures r.None? <==> forall i :: 0 <= i < |lines| ==> lines[i].key != key
  {
    if lines == [] then None
    else if lines[|lines| - 1].key == key then Some(|lines| - 1)
    else FindLine(lines[..|lines| - 1], key)
  }

  /** `{ p: impliedProb(o.price), odds: o.price, w: weight }` */
  function QuoteOf(o: Outcome, w: real): PricedQuote
  {
    PricedQuote(ImpliedProb(o.price as real), o.price, w)
  }

  function OutcomeKey(o: Outcome): LineKey
  {
    KeyOf(NormalizePlayer(o.description), o.point)
  }

  /** The empty line opened for a key not seen before. */
  function NewLine(o: Outcome): PropLine
  {
    PropLine(OutcomeKey(o), NormalizePlayer(o.description), o.point, [], [])
  }

  /** `line[side].push(q)` */
  function Push(line: PropLine, over: bool, q: PricedQuote): PropLine
  {
    if over then line.(over := line.over + [q]) else line.(under := line.under + [q])
  }

  /**
   * One outcome of the bucketing loop: its quote goes on its side of the line with its key,
   * which is opened at the end when the key is new.
   */
  function AddOutcome(lines: seq<PropLine>, o: Outcome, w: real): seq<PropLine>
  {
    var q := QuoteOf(o, w);
    var over := IsOverName(o.name);
    match FindLine(lines, OutcomeKey(o))
    case None => lines + [Push(NewLine(o), over, q)]
    case Some(i) => lines[i := Push(lines[i], over, q)]
  }

  /**
   * Adding an outcome opens a line only for a new key, leaves every line with another key as it
   * was, and puts the quote on its side of the line with its key.
   */
  lemma AddOutcomeRouting(lines: seq<PropLine>, o: Outcome, w: real)
    ensures var r := AddOutcome(lines, o, w);
      |r| == |lines| + (if FindLine(lines, OutcomeKey(o)).None? then 1 else 0)
      && (forall i :: 0 <= i < |lines| && lines[i].key != OutcomeKey(o) ==> r[i] == lines[i])
      && exists i :: (0 <= i < |r| && r[i].key == OutcomeKey(o)
        && r[i] == Push(if i < |lines| then lines[i] else NewLine(o), IsOverName(o.name), QuoteOf(o, w)))
  {
    var r := AddOutcome(lines, o, w);
    match FindLine(lines, OutcomeKey(o))
    case None =>
      assert r[|lines|].key == OutcomeKey(o);
    case Some(i) =>
      assert r[i].key == OutcomeKey(o);
  }

  /** The lines of one market after its outcomes have been visited. */
  function AddOutcomes(lines: seq<PropLine>, outcomes: seq<Outcome>, w: real): seq<PropLine>
    decreases |outcomes|
  {
    if outcomes == [] then lines
    else AddOutcome(AddOutcomes(lines, outcomes[..|outcomes| - 1], w), outcomes[|outcomes| - 1], w)
  }

  /** One market of one book: `output[m.key]` is opened if need be, then its outcomes are added. */
  function AddMarket(output: Output, m: Market, w: real): Output
  {
    output[m.key := AddOutcomes(if m.key in output then output[m.key] else [], m.outcomes, w)]
  }

  /** The first `n` markets of one book. */
  function AddMarkets(output: Output, markets: seq<Market>, n: nat, w: real): Output
    requires n <= |markets|
  {
    if n == 0 then output else AddMarket(AddMarkets(output, markets, n - 1, w), markets[n - 1], w)
  }

  /** `output` once the loop has visited the first `n` books. */
  function PropBucketsUpTo(bms: seq<Bookmaker>, n: nat): Output
    requires n <= |bms|
  {
    if n == 0 then map[]
    else
      var b := bms[n - 1];
      AddMarkets(PropBucketsUpTo(bms, n - 1), b.markets, |b.markets|, WeightOf(b.key))
  }

  function PropBuckets(bms: seq<Bookmaker>): Output
  {
    PropBucketsUpTo(bms, |bms|)
  }

  /** Opening an empty line and pushing onto it is appending the pushed line. */
  lemma OpenThenPush(lines: seq<PropLine>, blank: PropLine, over: bool, q: PricedQuote)
    ensures (lines + [blank])[|lines| := Push(blank, over, q)] == lines + [Push(blank, over, q)]
  {
  }

  /** The body of the innermost loop: one outcome's quote put on its line, opened if need be. */
  method PushOutcome(lines: seq<PropLine>, o: Outcome, weight: real) returns (next: seq<PropLine>)
    ensures next == AddOutcome(lines, o, weight)
  {
    var player := NormalizePlayer(o.description);
    var side := IsOverName(o.name);
    var key := KeyOf(player, o.point);
    var q := QuoteOf(o, weight);
    var found := FindLine(lines, key);
    if found.None? {
      var blank := PropLine(key, player, o.point, [], []);
      next := lines + [blank];
      OpenThenPush(lines, blank, side, q);
      next := next[|next| - 1 := Push(next[|next| - 1], side, q)];
    } else {
      next := lines[found.value := Push(lines[found.value], side, q)];
    }
  }

  /** The innermost loop: the outcomes of one market added to its lines. */
  method PushOutcomes(start: seq<PropLine>, outcomes: seq<Outcome>, weight: real) returns (lines: seq<PropLine>)
    ensures lines == AddOutcomes(start, outcomes, weight)
  {
    lines := start;
    var j := 0;
    while j < |outcomes|
      invariant 0 <= j <= |outcomes|
      invariant lines == AddOutcomes(start, outcomes[..j], weight)
    {
      ghost var previous := lines;
      lines := PushOutcome(lines, outcomes[j], weight);
      assert outcomes[..j + 1][..j] == outcomes[..j];
      assert AddOutcomes(start, outcomes[..j + 1], weight) == AddOutcome(previous, outcomes[j], weight);
      j := j + 1;
    }
    assert outcomes[..j] == outcomes;
  }

  /** One market's step of the loop: open `output[m.key]` if need be and add the outcomes. */
  method BucketMarket(output: Output, m: Market, weight: real) returns (next: Output)
    ensures next == AddMarket(output, m, weight)
  {
    next := output;
    if m.key !in next {
      next := next[m.key := []];
    }
    var grown := PushOutcomes(next[m.key], m.outcomes, weight);
    if m.key !in output {
      OverwriteTwice(output, m.key, [], grown);
    }
    next := next[m.key := grown];
  }

  /** Writing a key twice keeps only the second value. */
  lemma OverwriteTwice<K, V>(m: map<K, V>, k: K, first: V, second: V)
    ensures m[k := first][k := second] == m[k := second]
  {
    assert m[k := first][k := second].Keys == m[k := second].Keys;
  }

  /** The middle loop: the markets of one book, at that book's weight. */
  method BucketBook(output: Output, b: Bookmaker) returns (next: Output)
    ensures next == AddMarkets(output, b.markets, |b.markets|, WeightOf(b.key))
  {
    var weight := WeightOf(b.key);
    next := output;
    var k := 0;
    while k < |b.markets|
      invariant 0 <= k <= |b.markets|
      invariant next == AddMarkets(output, b.markets, k, weight)
    {
      next := BucketMarket(next, b.markets[k], weight);
      k := k + 1;
    }
  }

  /** The bucketing loop of the handler over the event's bookmakers and their markets. */
  method BucketProps(bookmakers: seq<Bookmaker>) returns (output: Output)
    ensures output == PropBuckets(bookmakers)
  {
    output := map[];
    var i := 0;
    while i < |bookmakers|
      invariant 0 <= i <= |bookmakers|
      invariant output == PropBucketsUpTo(bookmakers, i)
    {
      output := BucketBook(output, bookmakers[i]);
      i := i + 1;
    }
  }

  // ---------- What the buckets hold ----------

  /** No two lines of a market share a key. */
  predicate UniqueKeys(lines: seq<PropLine>)
  {
    forall i, j :: 0 <= i < j < |lines| ==> lines[i].key != lines[j].key
  }

  /** Every quote on every line is a valid quote. */
  predicate ValidLines(lines: seq<PropLine>)
  {
    forall i :: 0 <= i < |lines| ==> AllValid(lines[i].over) && AllValid(lines[i].under)
  }

  predicate LinesOk(lines: seq<PropLine>)
  {
    UniqueKeys(lines) && ValidLines(lines)
  }

  predicate OutputOk(output: Output)
  {
    forall mk :: mk in output ==> LinesOk(output[mk])
  }

  /** A quote at a non-zero price from a book of positive weight is valid. */
  lemma QuoteOfValid(o: Outcome, w: real)
    requires o.price != 0 && w > 0.0
    ensures ValidQuote(QuoteOf(o, w))
  {
  }

  lemma PushValid(line: PropLine, over: bool, q: PricedQuote)
    requires AllValid(line.over) && AllValid(line.under) && ValidQuote(q)
    ensures AllValid(Push(line, over, q).over) && AllValid(Push(line, over, q).under)
    ensures Push(line, over, q).key == line.key
  {
  }

  /** Adding one outcome keeps the keys unique and the quotes valid. */
  lemma AddOutcomeKeepsLinesOk(lines: seq<PropLine>, o: Outcome, w: real)
    requires LinesOk(lines) && o.price != 0 && w > 0.0
    ensures LinesOk(AddOutcome(lines, o, w))
  {
    var q := QuoteOf(o, w);
    var over := IsOverName(o.name);
    QuoteOfValid(o, w);
    match FindLine(lines, OutcomeKey(o))
    case None =>
      var line := Push(NewLine(o), over, q);
      PushValid(NewLine(o), over, q);
      assert AddOutcome(lines, o, w) == lines + [line];
      AppendKeepsLinesOk(lines, line);
    case Some(i) =>
      var line := Push(lines[i], over, q);
      PushValid(lines[i], over, q);
      assert AddOutcome(lines, o, w) == lines[i := line];
      UpdateKeepsLinesOk(lines, i, line);
  }

  lemma AppendKeepsLinesOk(lines: seq<PropLine>, line: PropLine)
    requires LinesOk(lines) && AllValid(line.over) && AllValid(line.under)
    requires forall i :: 0 <= i < |lines| ==> lines[i].key != line.key
    ensures LinesOk(lines + [line])
  {
  }

  lemma UpdateKeepsLinesOk(lines: seq<PropLine>, i: nat, line: PropLine)
    requires LinesOk(lines) && AllValid(line.over) && AllValid(line.under)
    requires i < |lines| && lines[i].key == line.key
    ensures LinesOk(lines[i := line])
  {
  }

  lemma {:induction false} AddOutcomesKeepsLinesOk(lines: seq<PropLine>, outcomes: seq<Outcome>, w: real)
    requires LinesOk(lines) && w > 0.0
    requires forall k :: 0 <= k < |outcomes| ==> outcomes[k].price != 0
    ensures LinesOk(AddOutcomes(lines, outcomes, w))
    decreases |outcomes|
  {
    if outcomes != [] {
      var n := |outcomes| - 1;
      AddOutcomesKeepsLinesOk(lines, outcomes[..n], w);
      AddOutcomeKeepsLinesOk(AddOutcomes(lines, outcomes[..n], w), outcomes[n], w);
    }
  }

  lemma {:induction false} AddMarketsKeepsOk(output: Output, b: Bookmaker, n: nat, w: real)
    requires n <= |b.markets| && OutputOk(output) && BookPriced(b) && w > 0.0
    ensures OutputOk(AddMarkets(output, b.markets, n, w))
  {
    if n > 0 {
      AddMarketsKeepsOk(output, b, n - 1, w);
      var before := AddMarkets(output, b.markets, n - 1, w);
      assert MarketPriced(b.markets[n - 1]);
      AddMarketKeepsOk(before, b.markets[n - 1], w);
    }
  }

  lemma AddMarketKeepsOk(output: Output, m: Market, w: real)
    requires OutputOk(output) && MarketPriced(m) && w > 0.0
    ensures OutputOk(AddMarket(output, m, w))
  {
    AddOutcomesKeepsLinesOk(if m.key in output then output[m.key] else [], m.outcomes, w);
  }

  /** With non-zero prices, every market's lines have distinct keys and hold only valid quotes. */
  lemma {:induction false} PropBucketsOk(bms: seq<Bookmaker>, n: nat)
    requires n <= |bms| && PricesNonZero(bms)
    ensures OutputOk(PropBucketsUpTo(bms, n))
  {
    if n > 0 {
      PropBucketsOk(bms, n - 1);
      var b := bms[n - 1];
      AddMarketsKeepsOk(PropBucketsUpTo(bms, n - 1), b, |b.markets|, WeightOf(b.key));
    }
  }

  /** The number of quotes on a line. */
  function LineCount(line: PropLine): nat
  {
    |line.over| + |line.under|
  }

  /** The number of quotes on all the lines. */
  function QuoteCount(lines: seq<PropLine>): nat
  {
    if lines == [] then 0 else QuoteCount(lines[..|lines| - 1]) + LineCount(lines[|lines| - 1])
  }

  lemma {:induction false} QuoteCountUpdate(lines: seq<PropLine>, i: nat, x: PropLine)
    requires i < |lines|
    ensures QuoteCount(lines[i := x]) + LineCount(lines[i]) == QuoteCount(lines) + LineCount(x)
  {
    var n := |lines| - 1;
    if i < n {
      assert lines[i := x][..n] == lines[..n][i := x];
      QuoteCountUpdate(lines[..n], i, x);
    } else {
      assert lines[i := x][..n] == lines[..n];
    }
  }

  /** Adding an outcome adds exactly one quote. */
  lemma AddOutcomeCount(lines: seq<PropLine>, o: Outcome, w: real)
    ensures QuoteCount(AddOutcome(lines, o, w)) == QuoteCount(lines) + 1
  {
    match FindLine(lines, OutcomeKey(o))
    case None =>
      assert (lines + [Push(NewLine(o), IsOverName(o.name), QuoteOf(o, w))])[..|lines|] == lines;
    case Some(i) =>
      QuoteCountUpdate(lines, i, Push(lines[i], IsOverName(o.name), QuoteOf(o, w)));
  }

  /** A market's lines gain one quote per outcome: none is lost and none is counted twice. */
  lemma {:induction false} AddOutcomesCount(lines: seq<PropLine>, outcomes: seq<Outcome>, w: real)
    ensures QuoteCount(AddOutcomes(lines, outcomes, w)) == QuoteCount(lines) + |outcomes|
    decreases |outcomes|
  {
    if outcomes != [] {
      var n := |outcomes| - 1;
      AddOutcomesCount(lines, outcomes[..n], w);
      AddOutcomeCount(AddOutcomes(lines, outcomes[..n], w), outcomes[n], w);
    }
  }

  /** The quotes held for market key `mk`. */
  function MarketCount(output: Output, mk: string): nat
  {
    if mk in output then QuoteCount(output[mk]) else 0
  }

  /** Reference count: the outcomes of the first `n` markets that have key `mk`. */
  function MarketOutcomes(markets: seq<Market>, n: nat, mk: string): nat
    requires n <= |markets|
  {
    if n == 0 then 0
    else MarketOutcomes(markets, n - 1, mk) + (if markets[n - 1].key == mk then |markets[n - 1].outcomes| else 0)
  }

  /** Reference count: the outcomes with market key `mk` over the first `n` books. */
  function FeedOutcomes(bms: seq<Bookmaker>, n: nat, mk: string): nat
    requires n <= |bms|
  {
    if n == 0 then 0 else FeedOutcomes(bms, n - 1, mk) + MarketOutcomes(bms[n - 1].markets, |bms[n - 1].markets|, mk)
  }

  lemma {:induction false} AddMarketsCount(output: Output, markets: seq<Market>, n: nat, w: real, mk: string)
    requires n <= |markets|
    ensures MarketCount(AddMarkets(output, markets, n, w), mk) == MarketCount(output, mk) + MarketOutcomes(markets, n, mk)
  {
    if n > 0 {
      var before := AddMarkets(output, markets, n - 1, w);
      var m := markets[n - 1];
      AddMarketsCount(output, markets, n - 1, w, mk);
      AddMarketCount(before, m, w, mk);
      assert MarketCount(AddMarkets(output, markets, n, w), mk) == MarketCount(AddMarket(before, m, w), mk);
      assert MarketOutcomes(markets, n, mk) == MarketOutcomes(markets, n - 1, mk) + (if m.key == mk then |m.outcomes| else 0);
    }
  }

  lemma AddMarketCount(output: Output, m: Market, w: real, mk: string)
    ensures MarketCount(AddMarket(output, m, w), mk) ==
      MarketCount(output, mk) + (if m.key == mk then |m.outcomes| else 0)
  {
    AddOutcomesCount(if m.key in output then output[m.key] else [], m.outcomes, w);
  }

  /** Every quote of the feed lands on exactly one line of its market. */
  lemma {:induction false} PropBucketsCount(bms: seq<Bookmaker>, n: nat, mk: string)
    requires n <= |bms|
    ensures MarketCount(PropBucketsUpTo(bms, n), mk) == FeedOutcomes(bms, n, mk)
  {
    if n > 0 {
      PropBucketsCount(bms, n - 1, mk);
      var b := bms[n - 1];
      var before := PropBucketsUpTo(bms, n - 1);
      assert MarketCount(PropBucketsUpTo(bms, n), mk) == MarketCount(AddMarkets(before, b.markets, |b.markets|, WeightOf(b.key)), mk);
      AddMarketsCount(before, b.markets, |b.markets|, WeightOf(b.key), mk);
    }
  }

  /** A market key is in the output exactly when some book lists a market with it, even an empty one. */
  lemma {:induction false} PropBucketsKeys(bms: seq<Bookmaker>, n: nat, mk: string)
    requires n <= |bms|
    ensures mk in PropBucketsUpTo(bms, n) <==>
      exists i, j :: 0 <= i < n && 0 <= j < |bms[i].markets| && bms[i].markets[j].key == mk
  {
    if n > 0 {
      PropBucketsKeys(bms, n - 1, mk);
      var b := bms[n - 1];
      AddMarketsKeys(PropBucketsUpTo(bms, n - 1), b.markets, |b.markets|, WeightOf(b.key), mk);
    }
  }

  lemma {:induction false} AddMarketsKeys(output: Output, markets: seq<Market>, n: nat, w: real, mk: string)
    requires n <= |markets|
    ensures mk in AddMarkets(output, markets, n, w) <==>
      mk in output || exists j :: 0 <= j < n && markets[j].key == mk
  {
    if n > 0 {
      var before := AddMarkets(output, markets, n - 1, w);
      AddMarketsKeys(output, markets, n - 1, w, mk);
      AddMarketKeys(before, markets[n - 1], w);
      assert AddMarkets(output, markets, n, w).Keys == before.Keys + {markets[n - 1].key};
      if mk == markets[n - 1].key {
        assert 0 <= n - 1 < n && markets[n - 1].key == mk;
      } else {
        assert (exists j :: 0 <= j < n && markets[j].key == mk) ==> exists j :: 0 <= j < n - 1 && markets[j].key == mk;
      }
    }
  }

  lemma AddMarketKeys(output: Output, m: Market, w: real)
    ensures AddMarket(output, m, w).Keys == output.Keys + {m.key}
  {
  }

  // ---------- Finalisation ----------

  /** One side of a finalised line: `{ prob, ev, odds }`. */
  datatype SideView = SideView(prob: real, ev: real, odds: int)

  /** One finalised line: `{ player, point, over, under }`. */
  datatype LineView = LineView(player: Option<string>, point: Option<real>, over: SideView, under: SideView)

  /** `Math.max(...xs.map(x => x.odds))`: the best price on offer. */
  function MaxOdds(xs: seq<PricedQuote>): (m: int)
    requires xs != []
    ensures forall i :: 0 <= i < |xs| ==> xs[i].odds <= m
    ensures exists i :: 0 <= i < |xs| && xs[i].odds == m
  {
    if |xs| == 1 then xs[0].odds
    else
      var rest := MaxOdds(xs[1..]);
      assert forall i :: 1 <= i < |xs| ==> xs[i] == xs[1..][i - 1];
      if xs[0].odds >= rest then xs[0].odds else rest
  }

  /**
   * The `map` callback of the finalisation: nothing for a line missing a side; otherwise the
   * no-vig consensus of each side, its EV at its first book's price and its best price.
   */
  function FinalizeLine(line: PropLine): (r: Option<LineView>)
    requires AllValid(line.over) && AllValid(line.under)
    ensures r.None? <==> line.over == [] || line.under == []
    ensures r.Some? ==> SumW(line.over) > 0.0 && SumW(line.under) > 0.0
    ensures r.Some? ==> r.value.over.prob * (WeightedAverage(line.over) + WeightedAverage(line.under)) == WeightedAverage(line.over)
    ensures r.Some? ==> r.value.under.prob * (WeightedAverage(line.over) + WeightedAverage(line.under)) == WeightedAverage(line.under)
    ensures r.Some? ==> r.value.player == line.player && r.value.point == line.point
    ensures r.Some? ==> r.value.over.prob + r.value.under.prob == 1.0
    ensures r.Some? ==> 0.0 < r.value.over.prob < 1.0 && 0.0 < r.value.under.prob < 1.0
    ensures r.Some? ==> r.value.over.ev == ExpectedValue(r.value.over.prob, line.over[0].odds as real)
    ensures r.Some? ==> r.value.under.ev == ExpectedValue(r.value.under.prob, line.under[0].odds as real)
    ensures r.Some? ==> r.value.over.odds == MaxOdds(line.over) && r.value.under.odds == MaxOdds(line.under)
  {
    if line.over == [] || line.under == [] then None
    else
      WeightedAverageInUnit(line.over);
      WeightedAverageInUnit(line.under);
      var fairOver := WeightedAverage(line.over);
      var fairUnder := WeightedAverage(line.under);
      var fair := NoVig(fairOver, fairUnder);
      Some(LineView(line.player, line.point,
        SideView(fair.0, ExpectedValue(fair.0, line.over[0].odds as real), MaxOdds(line.over)),
        SideView(fair.1, ExpectedValue(fair.1, line.under[0].odds as real), MaxOdds(line.under))))
  }

  /** The side the books lean to more heavily, on weighted average, gets the larger fair probability. */
  lemma OverFavoured(line: PropLine)
    requires AllValid(line.over) && AllValid(line.under) && line.over != [] && line.under != []
    ensures SumW(line.over) > 0.0 && SumW(line.under) > 0.0
    ensures var v := FinalizeLine(line).value;
      v.over.prob > v.under.prob <==> WeightedAverage(line.over) > WeightedAverage(line.under)
  {
    WeightedAverageInUnit(line.over);
    WeightedAverageInUnit(line.under);
    var v := FinalizeLine(line).value;
    var fairOver, fairUnder := WeightedAverage(line.over), WeightedAverage(line.under);
    Arith.ScaledOrder(v.over.prob, v.under.prob, fairOver + fairUnder, fairOver, fairUnder);
  }

  /** The EV of a line's better side, the sort key. */
  function Score(v: LineView): (best: real)
    ensures best >= v.over.ev && best >= v.under.ev
    ensures best == v.over.ev || best == v.under.ev
  {
    Max(v.over.ev, v.under.ev)
  }

  /** `Object.values(...).map(...).filter(Boolean)`: the finalised two-sided lines, in order. */
  function FinalizedLines(lines: seq<PropLine>): (views: seq<LineView>)
    requires ValidLines(lines)
    ensures |views| <= |lines|
  {
    if lines == [] then []
    else
      assert ValidLines(lines[1..]) by {
        assert forall i :: 0 <= i < |lines[1..]| ==> lines[1..][i] == lines[i + 1];
      }
      (match FinalizeLine(lines[0]) case None => [] case Some(v) => [v]) + FinalizedLines(lines[1..])
  }

  /** The views are exactly the finalisations of the two-sided lines. */
  lemma {:induction false} FinalizedLinesMembers(lines: seq<PropLine>)
    requires ValidLines(lines)
    ensures forall v :: v in FinalizedLines(lines) <==>
      exists i :: 0 <= i < |lines| && FinalizeLine(lines[i]) == Some(v)
  {
    if lines != [] {
      assert forall i :: 0 <= i < |lines[1..]| ==> lines[1..][i] == lines[i + 1];
      FinalizedLinesMembers(lines[1..]);
    }
  }

  function Min(a: int, b: int): int { if a <= b then a else b }

  /** `.sort((a, b) => best EV of b - best EV of a).slice(0, 3)` */
  function FinalizeMarket(lines: seq<PropLine>): (top: seq<LineView>)
    requires ValidLines(lines)
    ensures |top| == Min(3, |FinalizedLines(lines)|)
    ensures SortedDesc(top, Score)
    ensures multiset(top) <= multiset(FinalizedLines(lines))
  {
    var sorted := SortDesc(FinalizedLines(lines), Score);
    SortDescSpec(FinalizedLines(lines), Score);
    TakeSorted(sorted, Score, Min(3, |sorted|));
    sorted[..Min(3, |sorted|)]
  }

  /**
   * Lines tied on their best EV keep the order in which they were bucketed: among the kept lines
   * with score `k` are the first lines with score `k`, in that order.
   */
  lemma FinalizeMarketTies(lines: seq<PropLine>, k: real)
    requires ValidLines(lines)
    ensures var kept, all := WithKey(FinalizeMarket(lines), Score, k), WithKey(FinalizedLines(lines), Score, k);
      |kept| <= |all| && kept == all[..|kept|]
  {
    var sorted := SortDesc(FinalizedLines(lines), Score);
    var n := Min(3, |sorted|);
    assert sorted == sorted[..n] + sorted[n..];
    WithKeyAppend(sorted[..n], sorted[n..], Score, k);
    SortDescStable(FinalizedLines(lines), Score, k);
  }

  /** No line left out of the top three scores above one that was kept. */
  lemma FinalizeMarketKeepsBest(lines: seq<PropLine>)
    requires ValidLines(lines)
    ensures forall v, j :: v in FinalizedLines(lines) && v !in FinalizeMarket(lines) && 0 <= j < |FinalizeMarket(lines)| ==>
      Score(v) <= Score(FinalizeMarket(lines)[j])
  {
    var views := FinalizedLines(lines);
    var sorted := SortDesc(views, Score);
    SortDescSpec(views, Score);
    var top := FinalizeMarket(lines);
    assert top == sorted[..|top|];
    forall v, j | v in views && v !in top && 0 <= j < |top| ensures Score(v) <= Score(top[j]) {
      assert v in multiset(sorted);
      DroppedScoresLower(sorted, |top|, v, j);
    }
  }

  /** In a sorted sequence, an element not among the first `n` scores at most each of them. */
  lemma DroppedScoresLower(sorted: seq<LineView>, n: nat, v: LineView, j: nat)
    requires SortedDesc(sorted, Score) && n <= |sorted| && v in sorted && v !in sorted[..n] && j < n
    ensures Score(v) <= Score(sorted[j])
  {
    var k :| 0 <= k < |sorted| && sorted[k] == v;
    assert forall i :: 0 <= i < n ==> sorted[..n][i] == sorted[i];
  }

  /** A market no line of which has an over quote (a Yes/No market, say) finalises to nothing. */
  lemma {:induction false} OverlessMarketIsEmpty(lines: seq<PropLine>)
    requires ValidLines(lines) && forall i :: 0 <= i < |lines| ==> lines[i].over == []
    ensures FinalizedLines(lines) == [] && FinalizeMarket(lines) == []
  {
    if lines != [] {
      assert forall i :: 0 <= i < |lines[1..]| ==> lines[1..][i] == lines[i + 1];
      OverlessMarketIsEmpty(lines[1..]);
    }
  }

  /** Outcomes none of which is named as an over leave every over list of the market empty. */
  lemma {:induction false} OverlessOutcomes(lines: seq<PropLine>, outcomes: seq<Outcome>, w: real)
    requires forall i :: 0 <= i < |lines| ==> lines[i].over == []
    requires forall k :: 0 <= k < |outcomes| ==> !IsOverName(outcomes[k].name)
    ensures forall i :: 0 <= i < |AddOutcomes(lines, outcomes, w)| ==> AddOutcomes(lines, outcomes, w)[i].over == []
    decreases |outcomes|
  {
    if outcomes != [] {
      var n := |outcomes| - 1;
      OverlessOutcomes(lines, outcomes[..n], w);
      OverlessOutcome(AddOutcomes(lines, outcomes[..n], w), outcomes[n], w);
    }
  }

  lemma OverlessOutcome(lines: seq<PropLine>, o: Outcome, w: real)
    requires forall i :: 0 <= i < |lines| ==> lines[i].over == []
    requires !IsOverName(o.name)
    ensures forall i :: 0 <= i < |AddOutcome(lines, o, w)| ==> AddOutcome(lines, o, w)[i].over == []
  {
  }

  /** `for (const mkt in output) finalized[mkt] = ...`, keys visited in any order. */
  method FinalizeAll(output: Output) returns (finalized: map<string, seq<LineView>>)
    requires forall mk :: mk in output ==> ValidLines(output[mk])
    ensures finalized.Keys == output.Keys
    ensures forall mk :: mk in output ==> finalized[mk] == FinalizeMarket(output[mk])
  {
    finalized := map[];
    var pending := output.Keys;
    while pending != {}
      invariant pending <= output.Keys
      invariant finalized.Keys == output.Keys - pending
      invariant forall mk :: mk in finalized ==> finalized[mk] == FinalizeMarket(output[mk])
      decreases |pending|
    {
      var mkt :| mkt in pending;
      finalized := finalized[mkt := FinalizeMarket(output[mkt])];
      pending := pending - {mkt};
    }
  }

  /** The handler's computation on the event's bookmakers: bucket, then finalise every market. */
  method PropsMarkets(bookmakers: seq<Bookmaker>) returns (markets: map<string, seq<LineView>>)
    requires PricesNonZero(bookmakers)
    ensures OutputOk(PropBuckets(bookmakers))
    ensures markets.Keys == PropBuckets(bookmakers).Keys
    ensures forall mk :: mk in markets ==> markets[mk] == FinalizeMarket(PropBuckets(bookmakers)[mk])
  {
    var output := BucketProps(bookmakers);
    PropBucketsOk(bookmakers, |bookmakers|);
    markets := FinalizeAll(output);
  }
}
