/**
 The Google sign-in strategy: deriving a base username from the profile,
 choosing a free username by random suffixes with a timestamp fallback, and
 the find-or-create decision of the verify callback.

 The random suffixes and the clock are inputs; "is this username taken"
 is the `findByUsername` query on the current database.
 */
module Passport {
  import opened Js
  import opened Text
  import opened Lists
  import opened Store

  const MaxBaseLength: nat := 20
  const OAuthPasswordHash := "google-oauth"
  const NoEmailError := "No email provided by Google"

  // ---------------------------------------------------------------------
  // toBaseUsername
  // ---------------------------------------------------------------------

  /** The characters `[a-z0-9_]` a sanitised username keeps. */
  predicate IsUsernameChar(c: char) {
    ('a' <= c <= 'z') || ('0' <= c <= '9') || c == '_'
  }

  predicate AllUsernameChars(s: string) {
    forall i :: 0 <= i < |s| ==> IsUsernameChar(s[i])
  }

  predicate NotUnderscore(c: char) {
    c != '_'
  }

  /** No two neighbouring underscores. */
  predicate NoDoubleUnderscore(s: string) {
    forall i :: 0 <= i < |s| - 1 ==> !(s[i] == '_' && s[i + 1] == '_')
  }

  /**
   `.replace(/\s+/g, "_")`: every maximal run of whitespace becomes one
   underscore. `inRun` says the character before `s` was whitespace.
   */
  function SpaceRunsToUnderscore(s: string, inRun: bool): (r: string)
    ensures forall i :: 0 <= i < |r| ==> !IsJsSpace(r[i])
    ensures (forall i :: 0 <= i < |s| ==> !IsJsSpace(s[i])) ==> r == s
    decreases |s|
  {
    if |s| == 0 then ""
    else if IsJsSpace(s[0]) then (if inRun then "" else "_") + SpaceRunsToUnderscore(s[1..], true)
    else [s[0]] + SpaceRunsToUnderscore(s[1..], false)
  }

  /** `.replace(/[^a-z0-9_]/g, "")`: drops every other character, keeping the order. */
  function KeepUsernameChars(s: string): (r: string)
    ensures |r| <= |s|
    ensures AllUsernameChars(r)
    ensures AllUsernameChars(s) ==> r == s
    ensures r == Filter(s, IsUsernameChar)
    decreases |s|
  {
    if |s| == 0 then ""
    else (if IsUsernameChar(s[0]) then [s[0]] else []) + KeepUsernameChars(s[1..])
  }

  /**
   `.replace(/_+/g, "_")`: every run of underscores becomes one. `inRun`
   says the character before `s` was an underscore, whose run continues.
   */
  function CollapseUnderscores(s: string, inRun: bool): (r: string)
    ensures |r| <= |s|
    ensures AllUsernameChars(s) ==> AllUsernameChars(r)
    ensures NoDoubleUnderscore(r)
    ensures inRun ==> r == [] || r[0] != '_'
    ensures |s| > 0 && s[0] != '_' ==> |r| > 0 && r[0] == s[0]
    decreases |s|
  {
    if |s| == 0 then ""
    else if s[0] == '_' then (if inRun then "" else "_") + CollapseUnderscores(s[1..], true)
    else [s[0]] + CollapseUnderscores(s[1..], false)
  }

  /** `.replace(/^_+/, "")`: what is left after the leading run of underscores. */
  function DropLeadingUnderscores(s: string): (r: string)
    ensures |r| <= |s| && r == s[|s| - |r|..]
    ensures r == [] || r[0] != '_'
    ensures forall i :: 0 <= i < |s| - |r| ==> s[i] == '_'
    decreases |s|
  {
    if |s| > 0 && s[0] == '_' then DropLeadingUnderscores(s[1..]) else s
  }

  /** `.replace(/_+$/, "")`: what is left before the trailing run of underscores. */
  function DropTrailingUnderscores(s: string): (r: string)
    ensures |r| <= |s| && r == s[..|r|]
    ensures r == [] || r[|r| - 1] != '_'
    ensures forall i :: |r| <= i < |s| ==> s[i] == '_'
    decreases |s|
  {
    if |s| > 0 && s[|s| - 1] == '_' then DropTrailingUnderscores(s[..|s| - 1]) else s
  }

  /**
   `.replace(/^_+|_+$/g, "")`: removes the leading and the trailing run of
   underscores. What is cut off on either side is underscores only, and the
   result neither starts nor ends with one, which determines it.
   */
  function TrimUnderscores(s: string): (r: string)
    ensures |r| <= |s|
    ensures r == [] || (r[0] != '_' && r[|r| - 1] != '_')
    ensures exists a, b :: Trimmed(s, r, a, b)
  {
    var rest := DropLeadingUnderscores(s);
    var r := DropTrailingUnderscores(rest);
    TrimBounds(s, rest, r);
    r
  }

  /** `r` is `s[a..b]`, and only underscores lie outside that slice. */
  predicate Trimmed(s: string, r: string, a: int, b: int) {
    && 0 <= a <= b <= |s| && r == s[a..b]
    && (forall i :: 0 <= i < a ==> s[i] == '_')
    && (forall i :: b <= i < |s| ==> s[i] == '_')
  }

  /**
   Cutting a run of underscores from the front of `s`, giving `rest`, and
   then one from the back of `rest`, giving `r`, cuts underscores only and
   leaves none at either end.
   */
  lemma TrimBounds(s: string, rest: string, r: string)
    requires |rest| <= |s| && rest == s[|s| - |rest|..]
    requires forall i :: 0 <= i < |s| - |rest| ==> s[i] == '_'
    requires rest == [] || rest[0] != '_'
    requires |r| <= |rest| && r == rest[..|r|]
    requires forall i :: |r| <= i < |rest| ==> rest[i] == '_'
    requires r == [] || r[|r| - 1] != '_'
    ensures exists a, b :: Trimmed(s, r, a, b)
    ensures r == [] || (r[0] != '_' && r[|r| - 1] != '_')
  {
    var a := |s| - |rest|;
    assert r == s[a..a + |r|];
    forall i | a + |r| <= i < |s| ensures s[i] == '_' {
      assert s[i] == rest[i - a];
    }
    assert Trimmed(s, r, a, a + |r|);
    assert r == [] || r[0] == rest[0];
  }

  /** `.slice(0, n)`. */
  function Take(s: string, n: nat): (r: string)
    ensures |r| <= n && r <= s
    ensures |s| <= n ==> r == s
    ensures |s| > n ==> r == s[..n]
  {
    if |s| <= n then s else s[..n]
  }

  /** A whitespace run that continues an earlier one adds nothing. */
  lemma {:induction false} SpaceRunContinues(w: string)
    requires AllSpace(w)
    ensures SpaceRunsToUnderscore(w, true) == ""
    decreases |w|
  {
    if |w| > 0 {
      SpaceRunContinues(w[1..]);
    }
  }

  /** A whole run of whitespace becomes exactly one underscore. */
  lemma SpaceRunIsOneUnderscore(w: string)
    requires |w| > 0 && AllSpace(w)
    ensures SpaceRunsToUnderscore(w, false) == "_"
  {
    SpaceRunContinues(w[1..]);
  }

  /**
   A character that is not whitespace ends any run and is kept: the result
   on `a + [x] + b` is the result on `a`, then `x`, then the result on `b`.
   With SpaceRunIsOneUnderscore this determines the replacement on every
   string.
   */
  lemma {:induction false} SpaceRunsSplit(a: string, x: char, b: string, inRun: bool)
    requires !IsJsSpace(x)
    ensures SpaceRunsToUnderscore(a + [x] + b, inRun) == SpaceRunsToUnderscore(a, inRun) + [x] + SpaceRunsToUnderscore(b, false)
    decreases |a|
  {
    var s := a + [x] + b;
    if |a| == 0 {
      assert s[1..] == b;
    } else {
      assert s[1..] == a[1..] + [x] + b;
      SpaceRunsSplit(a[1..], x, b, IsJsSpace(a[0]));
    }
  }

  /** Neither whitespace nor an underscore. */
  predicate IsPlainChar(c: char) {
    !IsJsSpace(c) && c != '_'
  }

  /** Whitespace replacement keeps every other character but the underscore, in order. */
  lemma {:induction false} SpaceRunsKeepOtherChars(s: string, inRun: bool)
    ensures Filter(SpaceRunsToUnderscore(s, inRun), IsPlainChar) == Filter(s, IsPlainChar)
    decreases |s|
  {
    if |s| > 0 {
      var c, t := s[0], s[1..];
      var head := if !IsJsSpace(c) then [c] else if inRun then "" else "_";
      SpaceAfter(s, c, t, inRun);
      SpaceRunsKeepOtherChars(t, IsJsSpace(c));
      FilterAppend(head, SpaceRunsToUnderscore(t, IsJsSpace(c)), IsPlainChar);
      FilterAppend([c], t, IsPlainChar);
    }
  }

  /** An underscore run that continues an earlier one adds nothing. */
  lemma {:induction false} UnderscoreRunContinues(w: string)
    requires forall i :: 0 <= i < |w| ==> w[i] == '_'
    ensures CollapseUnderscores(w, true) == ""
    decreases |w|
  {
    if |w| > 0 {
      UnderscoreRunContinues(w[1..]);
    }
  }

  /** A whole run of underscores becomes exactly one. */
  lemma UnderscoreRunIsOne(w: string)
    requires |w| > 0 && forall i :: 0 <= i < |w| ==> w[i] == '_'
    ensures CollapseUnderscores(w, false) == "_"
  {
    UnderscoreRunContinues(w[1..]);
  }

  /** One step of the collapse: the first character's contribution, then the rest. */
  lemma CollapseStep(s: string, inRun: bool)
    requires |s| > 0
    ensures CollapseUnderscores(s, inRun) ==
      (if s[0] != '_' then [s[0]] else if inRun then "" else "_") + CollapseUnderscores(s[1..], s[0] == '_')
  {
  }

  /** The collapse keeps every character other than an underscore, in order. */
  lemma {:induction false} CollapseKeepsOtherChars(s: string, inRun: bool)
    ensures Filter(CollapseUnderscores(s, inRun), NotUnderscore) == Filter(s, NotUnderscore)
    decreases |s|
  {
    if |s| > 0 {
      var head := if s[0] != '_' then [s[0]] else if inRun then "" else "_";
      var rest := CollapseUnderscores(s[1..], s[0] == '_');
      CollapseStep(s, inRun);
      CollapseKeepsOtherChars(s[1..], s[0] == '_');
      FilterAppend(head, rest, NotUnderscore);
      assert s == [s[0]] + s[1..];
      FilterAppend([s[0]], s[1..], NotUnderscore);
    }
  }

  /**
   A character other than an underscore ends any run and is kept. With
   UnderscoreRunIsOne this determines the collapse on every string.
   */
  lemma {:induction false} CollapseSplit(a: string, x: char, b: string, inRun: bool)
    requires x != '_'
    ensures CollapseUnderscores(a + [x] + b, inRun) == CollapseUnderscores(a, inRun) + [x] + CollapseUnderscores(b, false)
    decreases |a|
  {
    if |a| == 0 {
      ConsParts([], x, b);
      CollapseAfter(a + [x] + b, x, b, inRun);
    } else {
      var c, t := a[0], a[1..];
      ConsParts(a, x, b);
      CollapseSplit(t, x, b, c == '_');
      CollapseAfter(a + [x] + b, c, t + [x] + b, inRun);
      CollapseAfter(a, c, t, inRun);
      var h := if c != '_' then [c] else if inRun then "" else "_";
      Regroup(h, CollapseUnderscores(t, c == '_'), x, CollapseUnderscores(b, false));
    }
  }

  /** `CollapseStep` for a string given as its first character and the rest. */
  lemma CollapseAfter(s: string, c: char, rest: string, inRun: bool)
    requires s == [c] + rest
    ensures CollapseUnderscores(s, inRun) ==
      (if c != '_' then [c] else if inRun then "" else "_") + CollapseUnderscores(rest, c == '_')
  {
    CollapseStep(s, inRun);
    assert s[1..] == rest;
  }

  /** How `a + [x] + b` splits at its first character. */
  lemma ConsParts(a: string, x: char, b: string)
    ensures |a| == 0 ==> a + [x] + b == [x] + b
    ensures |a| > 0 ==> a == [a[0]] + a[1..] && a + [x] + b == [a[0]] + (a[1..] + [x] + b)
  {
  }

  /** Regrouping a four-part concatenation. */
  lemma Regroup(h: string, m: string, x: char, e: string)
    ensures h + (m + [x] + e) == (h + m) + [x] + e
  {
  }

  /** The chain of replacements and the 20-character cut of `toBaseUsername`. */
  function Sanitize(name: string): string {
    var spaced := SpaceRunsToUnderscore(Lower(name), false);
    Take(TrimUnderscores(CollapseUnderscores(KeepUsernameChars(spaced), false)), MaxBaseLength)
  }

  /** A slice keeps the username alphabet and the absence of double underscores. */
  lemma SliceKeepsShape(s: string, a: nat, b: nat)
    requires a <= b <= |s|
    ensures AllUsernameChars(s) ==> AllUsernameChars(s[a..b])
    ensures NoDoubleUnderscore(s) ==> NoDoubleUnderscore(s[a..b])
  {
    var t := s[a..b];
    assert forall i :: 0 <= i < |t| ==> t[i] == s[a + i];
  }

  /** Trimming the underscores keeps the alphabet and the absence of double underscores. */
  lemma TrimUnderscoresShape(s: string)
    ensures AllUsernameChars(s) ==> AllUsernameChars(TrimUnderscores(s))
    ensures NoDoubleUnderscore(s) ==> NoDoubleUnderscore(TrimUnderscores(s))
  {
    var rest := DropLeadingUnderscores(s);
    SliceKeepsShape(s, |s| - |rest|, |s|);
    SliceKeepsShape(rest, 0, |DropTrailingUnderscores(rest)|);
  }

  /**
   A sanitised name has at most 20 characters, all of them `[a-z0-9_]`, no
   leading underscore and no double underscore. The cut can leave a
   trailing underscore.
   */
  lemma SanitizeShape(name: string)
    ensures var r := Sanitize(name);
      |r| <= 20 && AllUsernameChars(r) && (r == [] || r[0] != '_') && NoDoubleUnderscore(r)
  {
    var collapsed := CollapseUnderscores(KeepUsernameChars(SpaceRunsToUnderscore(Lower(name), false)), false);
    var trimmed := TrimUnderscores(collapsed);
    TrimUnderscoresShape(collapsed);
    var r := Take(trimmed, MaxBaseLength);
    SliceKeepsShape(trimmed, 0, |r|);
    assert r == trimmed[0..|r|];
  }

  /**
   `toBaseUsername(name)`: the sanitised name, or when that is empty
   "user_" followed by the first six characters of the raw name. The
   source counts UTF-16 code units there; this model counts characters.
   */
  function ToBaseUsername(name: string): (r: string)
    ensures 1 <= |r| <= 20
    ensures "user_" <= r || (AllUsernameChars(r) && r[0] != '_' && NoDoubleUnderscore(r))
    ensures Sanitize(name) != "" ==> r == Sanitize(name)
    ensures Sanitize(name) == "" ==> r == "user_" + Take(name, 6)
  {
    SanitizeShape(name);
    var sanitized := Sanitize(name);
    if sanitized != "" then sanitized else "user_" + Take(name, 6)
  }

  /** A name already in sanitised form: what `ToBaseUsername` leaves unchanged. */
  predicate IsCleanBase(s: string) {
    && 1 <= |s| <= 20
    && AllUsernameChars(s)
    && s[0] != '_' && s[|s| - 1] != '_'
    && NoDoubleUnderscore(s)
  }

  /** Lower-casing leaves username characters alone. */
  lemma LowerOfUsernameChars(s: string)
    requires AllUsernameChars(s)
    ensures Lower(s) == s
  {
  }

  /** Collapsing changes nothing when there is no double underscore to collapse. */
  lemma {:induction false} CollapseClean(s: string, inRun: bool)
    requires NoDoubleUnderscore(s)
    requires inRun ==> s == [] || s[0] != '_'
    ensures CollapseUnderscores(s, inRun) == s
    decreases |s|
  {
    if |s| > 0 {
      assert NoDoubleUnderscore(s[1..]) by {
        forall i | 0 <= i < |s[1..]| - 1 ensures !(s[1..][i] == '_' && s[1..][i + 1] == '_') {
          assert s[1..][i] == s[i + 1] && s[1..][i + 1] == s[i + 2];
        }
      }
      CollapseClean(s[1..], s[0] == '_');
      assert s == [s[0]] + s[1..];
    }
  }

  /** A lower-case letter or a digit. */
  predicate IsWordChar(c: char) {
    ('a' <= c <= 'z') || ('0' <= c <= '9')
  }

  /** A non-empty run of lower-case letters and digits. */
  predicate IsWord(w: string) {
    |w| > 0 && forall i :: 0 <= i < |w| ==> IsWordChar(w[i])
  }

  /** Whitespace replacement leaves a run of word characters unchanged. */
  lemma WordUnspaced(w: string, inRun: bool)
    requires forall i :: 0 <= i < |w| ==> IsWordChar(w[i])
    ensures SpaceRunsToUnderscore(w, inRun) == w
  {
    forall i | 0 <= i < |w| ensures !IsJsSpace(w[i]) {
      assert IsWordChar(w[i]);
    }
  }

  /** The space between two words becomes one underscore. */
  lemma SpaceBetweenWords(a: string, b: string)
    requires IsWord(a) && IsWord(b)
    ensures SpaceRunsToUnderscore(a + " " + b, false) == a + "_" + b
  {
    var front, x := a[..|a| - 1], a[|a| - 1];
    WordParts(a, b);
    WordUnspaced(front, false);
    SpaceRunsSplit(front, x, " " + b, false);
    SpaceAfter(" " + b, ' ', b, false);
    WordUnspaced(b, true);
  }

  /** How two words around a space split at the last character of the first. */
  lemma WordParts(a: string, b: string)
    requires IsWord(a)
    ensures var front, x := a[..|a| - 1], a[|a| - 1];
      && (forall i :: 0 <= i < |front| ==> IsWordChar(front[i])) && !IsJsSpace(x)
      && a + " " + b == front + [x] + (" " + b)
      && front + [x] + ("_" + b) == a + "_" + b
  {
    var front, x := a[..|a| - 1], a[|a| - 1];
    assert IsWordChar(x);
    assert a == front + [x];
  }

  /** One step of the whitespace replacement, for a string given as its first character and the rest. */
  lemma SpaceAfter(s: string, c: char, rest: string, inRun: bool)
    requires s == [c] + rest
    ensures SpaceRunsToUnderscore(s, inRun) ==
      (if !IsJsSpace(c) then [c] else if inRun then "" else "_") + SpaceRunsToUnderscore(rest, IsJsSpace(c))
  {
    assert s[1..] == rest;
  }

  /** Lower-casing leaves two words and the space between them alone. */
  lemma TwoWordsLowered(a: string, b: string)
    requires IsWord(a) && IsWord(b)
    ensures Lower(a + " " + b) == a + " " + b
  {
    var s := a + " " + b;
    forall i | 0 <= i < |s| ensures LowerChar(s[i]) == s[i] {
      assert !IsAsciiUpper(s[i]) by {
        if i < |a| { assert s[i] == a[i] && IsWordChar(a[i]); }
        else if i > |a| { assert s[i] == b[i - |a| - 1] && IsWordChar(b[i - |a| - 1]); }
      }
    }
  }

  /** Two words joined by an underscore are in sanitised form when short enough. */
  lemma TwoWordsJoinedClean(a: string, b: string)
    requires IsWord(a) && IsWord(b) && |a| + 1 + |b| <= MaxBaseLength
    ensures IsCleanBase(a + "_" + b)
  {
    var t := a + "_" + b;
    forall i | 0 <= i < |t| ensures (t[i] == '_' <==> i == |a|) && IsUsernameChar(t[i]) {
      if i < |a| { assert t[i] == a[i] && IsWordChar(a[i]); }
      else if i > |a| { assert t[i] == b[i - |a| - 1] && IsWordChar(b[i - |a| - 1]); }
    }
  }

  /** The steps after whitespace replacement leave a name in sanitised form unchanged. */
  lemma CleanChainFixed(t: string)
    requires IsCleanBase(t)
    ensures Take(TrimUnderscores(CollapseUnderscores(KeepUsernameChars(t), false)), MaxBaseLength) == t
  {
    assert KeepUsernameChars(t) == t;
    CollapseClean(t, false);
    assert TrimUnderscores(t) == t;
  }

  /** The replacements and the cut turn two words around a space into the words joined by an underscore. */
  lemma SanitizeTwoWords(a: string, b: string)
    requires IsWord(a) && IsWord(b) && |a| + 1 + |b| <= MaxBaseLength
    ensures Sanitize(a + " " + b) == a + "_" + b
  {
    TwoWordsLowered(a, b);
    SpaceBetweenWords(a, b);
    TwoWordsJoinedClean(a, b);
    CleanChainFixed(a + "_" + b);
  }

  /**
   Two words separated by one space, 20 characters at most in all, give
   the words joined by an underscore: "bob smith" gives "bob_smith".
   */
  lemma ToBaseUsernameTwoWords(a: string, b: string)
    requires IsWord(a) && IsWord(b) && |a| + 1 + |b| <= MaxBaseLength
    ensures ToBaseUsername(a + " " + b) == a + "_" + b
  {
    SanitizeTwoWords(a, b);
  }

  /** Sanitisation sees a name only through its lower-cased form. */
  lemma SanitizeSeesLowered(name: string, other: string)
    requires Lower(name) == Lower(other)
    ensures Sanitize(name) == Sanitize(other)
  {
  }

  /**
   Any name that lower-cases to two words around one space, 20 characters
   at most in all, gives the lower-cased words joined by an underscore.
   */
  lemma ToBaseUsernameTwoWordsAnyCase(name: string, a: string, b: string)
    requires IsWord(a) && IsWord(b) && |a| + 1 + |b| <= MaxBaseLength
    requires Lower(name) == a + " " + b
    ensures ToBaseUsername(name) == a + "_" + b
  {
    SanitizeTwoWords(a, b);
    TwoWordsLowered(a, b);
    SanitizeSeesLowered(name, a + " " + b);
    assert Sanitize(name) == a + "_" + b;
  }

  /** The example of the sign-in flow: "Bob Smith" becomes "bob_smith". */
  lemma ToBaseUsernameBobSmith(name: string, first: string, last: string)
    requires name == "Bob Smith" && first == "bob" && last == "smith"
    ensures ToBaseUsername(name) == first + "_" + last
  {
    assert IsWord(first) && IsWord(last) by {
      assert forall i :: 0 <= i < |first| ==> first[i] in "bo";
      assert forall i :: 0 <= i < |last| ==> last[i] in "smith";
    }
    var lowered := first + " " + last;
    assert Lower(name) == lowered by {
      forall i | 0 <= i < |name| ensures LowerChar(name[i]) == lowered[i] {
        if i == 0 { assert IsAsciiUpper(name[0]); }
        else { assert i in {1, 2, 3, 4, 5, 6, 7, 8}; }
      }
    }
    ToBaseUsernameTwoWordsAnyCase(name, first, last);
  }

  /** Sanitisation is the identity on names already in sanitised form. */
  lemma ToBaseUsernameFixesCleanNames(s: string)
    requires IsCleanBase(s)
    ensures ToBaseUsername(s) == s
  {
    LowerOfUsernameChars(s);
    forall i | 0 <= i < |s| ensures !IsJsSpace(s[i]) {
      assert IsUsernameChar(s[i]);
    }
    assert SpaceRunsToUnderscore(s, false) == s;
    CleanChainFixed(s);
  }

  // ---------------------------------------------------------------------
  // generateUniqueUsername
  // ---------------------------------------------------------------------

  /** The number of random draws before the timestamp fallback. */
  const Attempts: nat := 10

  /** `${base}_${suffix}`. */
  function Candidate(base: string, suffix: string): string {
    base + "_" + suffix
  }

  function Candidates(base: string, suffixes: seq<string>): (r: seq<string>)
    ensures |r| == |suffixes|
    ensures forall i :: 0 <= i < |r| ==> r[i] == Candidate(base, suffixes[i])
  {
    seq(|suffixes|, i requires 0 <= i < |suffixes| => Candidate(base, suffixes[i]))
  }

  /** `findByUsername(candidate)` found nothing. */
  function IsFree(db: Db): string -> bool {
    (u: string) => FindUserByUsername(db, u).None?
  }

  /** `.slice(-6)`: the last six characters, or all of a shorter string. */
  function Last6(s: string): (r: string)
    ensures |r| == if |s| < 6 then |s| else 6
    ensures s == s[..|s| - |r|] + r
  {
    if |s| <= 6 then s else s[|s| - 6..]
  }

  /** The seed `baseFromDisplay || baseFromEmail || profileId`. */
  function Seed(baseFromDisplay: string, profileId: string): string {
    var baseFromEmail := Split(baseFromDisplay, '@')[0];
    if baseFromDisplay != "" then baseFromDisplay
    else if baseFromEmail != "" then baseFromEmail
    else profileId
  }

  /**
   The reference choice: the first free candidate among the draws, else
   the base with the last six digits of the clock appended.
   */
  function UniqueUsername(db: Db, base: string, suffixes: seq<string>, now: nat): (r: string)
    ensures base + "_" <= r
    ensures
      || (exists i :: 0 <= i < |suffixes| && r == Candidate(base, suffixes[i]) && FindUserByUsername(db, r).None?
            && forall j :: 0 <= j < i ==> FindUserByUsername(db, Candidate(base, suffixes[j])).Some?)
      || ((forall j :: 0 <= j < |suffixes| ==> FindUserByUsername(db, Candidate(base, suffixes[j])).Some?)
            && r == base + "_" + Last6(NatToString(now)))
  {
    match Find(Candidates(base, suffixes), IsFree(db))
    case Some(candidate) => candidate
    case None => base + "_" + Last6(NatToString(now))
  }

  /** The loop of `generateUniqueUsername`: the first drawn candidate nobody holds. */
  method FirstFreeCandidate(db: Db, base: string, suffixes: seq<string>) returns (found: Option<string>)
    ensures found == Find(Candidates(base, suffixes), IsFree(db))
  {
    ghost var cands := Candidates(base, suffixes);
    var i := 0;
    while i < |suffixes|
      invariant 0 <= i <= |suffixes|
      invariant forall j :: 0 <= j < i ==> !IsFree(db)(cands[j])
    {
      var candidate := Candidate(base, suffixes[i]);
      if FindUserByUsername(db, candidate).None? {
        FindAt(cands, i, IsFree(db));
        return Some(candidate);
      }
      i := i + 1;
    }
    return None;
  }

  /**
   `generateUniqueUsername`: tries the ten drawn suffixes in order and
   returns the first candidate nobody holds; when all ten are taken, the
   timestamp name, which is not checked.
   */
  method GenerateUniqueUsername(db: Db, baseFromDisplay: string, profileId: string, suffixes: seq<string>, now: nat)
    returns (username: string)
    requires |suffixes| == Attempts
    ensures username == UniqueUsername(db, ToBaseUsername(Seed(baseFromDisplay, profileId)), suffixes, now)
  {
    var base := ToBaseUsername(Seed(baseFromDisplay, profileId));
    var found := FirstFreeCandidate(db, base, suffixes);
    if found.Some? {
      username := found.value;
    } else {
      username := base + "_" + Last6(NatToString(now));
    }
  }

  // ---------------------------------------------------------------------
  // The verify callback
  // ---------------------------------------------------------------------

  /** The parts of a Google profile the callback reads; `emails` holds the address values. */
  datatype Profile = Profile(id: string, displayName: Option<string>, emails: Option<seq<string>>)

  datatype VerifyOutcome = SignedIn(user: User) | VerifyFailed(error: string)

  /**
   The verify callback as a function: the outcome and the table it leaves,
   the username chosen as `UniqueUsername` chooses it.
   */
  function SignIn(db: Db, profile: Profile, suffixes: seq<string>, now: nat): (r: (Db, VerifyOutcome))
    ensures r.1.VerifyFailed? <==> profile.emails.None? || profile.emails.value == []
    ensures r.1.SignedIn? ==>
      && profile.emails.Some? && profile.emails.value != []
      && r.1.user in r.0.users && r.1.user.email == Lower(profile.emails.value[0])
    ensures |r.0.users| >= |db.users| && r.0.users[..|db.users|] == db.users
  {
    if profile.emails.None? || profile.emails.value == [] then (db, VerifyFailed(NoEmailError))
    else
      var email := Lower(profile.emails.value[0]);
      var existing := FindUserByEmail(db, email);
      if existing.Some? then (db, SignedIn(existing.value))
      else
        var display := Or(profile.displayName, Split(email, '@')[0]);
        var username := UniqueUsername(db, ToBaseUsername(Seed(display, profile.id)), suffixes, now);
        var (db1, user) := CreateUser(db, username, email, OAuthPasswordHash, false, now);
        assert db1.users[..|db.users|] == db.users;
        (db1, SignedIn(user))
  }

  /**
   Signing in again with the same profile, whatever the new draws and
   clock, returns the same user and writes nothing: the first sign-in
   stored the user under the address the second looks up.
   */
  lemma SignInAgain(db: Db, profile: Profile, suffixes: seq<string>, now: nat, suffixes': seq<string>, later: nat)
    ensures var (db1, first) := SignIn(db, profile, suffixes, now);
      SignIn(db1, profile, suffixes', later) == (db1, first)
  {
    if profile.emails.Some? && profile.emails.value != [] {
      var email := Lower(profile.emails.value[0]);
      var (db1, first) := SignIn(db, profile, suffixes, now);
      if FindUserByEmail(db, email).None? {
        var u := first.user;
        assert db1.users == db.users + [u];
        FindFirst(u, [], EmailIs(email));
        assert [u] + [] == [u];
        FindSkips(db.users, [u], EmailIs(email));
        assert FindUserByEmail(db1, email) == Some(u);
      }
    }
  }

  /**
   The verify callback: a profile without an email fails; otherwise the
   lower-cased address is looked up, an existing user is returned as is,
   and a new user is created under a generated username with the marker
   hash "google-oauth" and no premium.
   */
  method GoogleVerify(db: Db, profile: Profile, suffixes: seq<string>, now: nat)
    returns (db': Db, outcome: VerifyOutcome)
    requires |suffixes| == Attempts
    ensures profile.emails.None? || profile.emails.value == [] ==>
      db' == db && outcome == VerifyFailed("No email provided by Google")
    ensures profile.emails.Some? && profile.emails.value != [] ==>
      var email := Lower(profile.emails.value[0]);
      && outcome.SignedIn?
      && outcome.user.email == email
      && (FindUserByEmail(db, email).Some? ==> db' == db && outcome.user == FindUserByEmail(db, email).value)
      && (FindUserByEmail(db, email).None? ==>
            && db'.users == db.users + [outcome.user]
            && outcome.user.passwordHash == "google-oauth" && !outcome.user.isPremium
            && outcome.user.id == |db.users| + 1
            && db'.chats == db.chats && db'.messages == db.messages && db'.daily == db.daily
            && outcome.user.username ==
                 UniqueUsername(db, ToBaseUsername(Seed(Or(profile.displayName, Split(email, '@')[0]), profile.id)), suffixes, now))
    ensures Wf(db) ==> Wf(db')
    ensures (db', outcome) == SignIn(db, profile, suffixes, now)
  {
    if profile.emails.None? || profile.emails.value == [] {
      return db, VerifyFailed(NoEmailError);
    }
    var email := Lower(profile.emails.value[0]);
    var existing := FindUserByEmail(db, email);
    if existing.Some? {
      return db, SignedIn(existing.value);
    }
    var display := Or(profile.displayName, Split(email, '@')[0]);
    var username := GenerateUniqueUsername(db, display, profile.id, suffixes, now);
    var (db1, user) := CreateUser(db, username, email, OAuthPasswordHash, false, now);
    return db1, SignedIn(user);
  }
}
