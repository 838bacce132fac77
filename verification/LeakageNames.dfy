/** Field names as the provider leakage guard reads them: normalisation to words
    joined by underscores, and the search for the words of a token. */
module LeakageNames {
  import opened Text

  predicate IsWordChar(c: char) { IsLower(c) || IsDigit(c) }

  // ------------------------------------------------------------- normalisation

  /** A capital starts a new word after a small letter or digit, and as the last
      capital of a run that is followed by a small letter. */
  predicate Boundary(s: string, i: nat)
    requires i < |s|
  {
    && i > 0 && IsUpper(s[i])
    && (IsWordChar(s[i - 1]) || (IsUpper(s[i - 1]) && i + 1 < |s| && IsLower(s[i + 1])))
  }

  function SplitWords(s: string, i: nat): string
    requires i <= |s|
    decreases |s| - i
  {
    if i == |s| then "" else (if Boundary(s, i) then "_" else "") + [s[i]] + SplitWords(s, i + 1)
  }

  /** Every run of other characters becomes one underscore. */
  function Collapse(s: string, inRun: bool): string {
    if s == "" then ""
    else if IsWordChar(s[0]) then [s[0]] + Collapse(s[1..], false)
    else (if inRun then "" else "_") + Collapse(s[1..], true)
  }

  function TrimLeft(s: string): string {
    if s != "" && s[0] == '_' then TrimLeft(s[1..]) else s
  }

  function TrimRight(s: string): string {
    if s != "" && s[|s| - 1] == '_' then TrimRight(s[..|s| - 1]) else s
  }

  function Normalize(name: string): string {
    TrimRight(TrimLeft(Collapse(Lower(SplitWords(name, 0)), false)))
  }

  /** Words of small letters and digits, joined by single underscores. */
  predicate Normal(s: string) {
    && (forall i :: 0 <= i < |s| ==> IsWordChar(s[i]) || s[i] == '_')
    && (s != "" ==> s[0] != '_' && s[|s| - 1] != '_')
    && (forall i :: 0 < i < |s| ==> s[i - 1] != '_' || s[i] != '_')
  }

  predicate Collapsed(s: string, inRun: bool) {
    && (forall i :: 0 <= i < |s| ==> IsWordChar(s[i]) || s[i] == '_')
    && (forall i :: 0 < i < |s| ==> s[i - 1] != '_' || s[i] != '_')
    && (inRun && s != "" ==> s[0] != '_')
  }

  lemma {:induction false} CollapseIsCollapsed(s: string, inRun: bool)
    ensures Collapsed(Collapse(s, inRun), inRun)
  {
    if s != "" {
      CollapseIsCollapsed(s[1..], !IsWordChar(s[0]));
    }
  }

  lemma {:induction false} TrimLeftKeeps(s: string)
    requires Collapsed(s, false)
    ensures Collapsed(TrimLeft(s), true)
  {
    if s != "" && s[0] == '_' {
      TrimLeftKeeps(s[1..]);
    }
  }

  lemma {:induction false} TrimRightKeeps(s: string)
    requires Collapsed(s, true)
    ensures Normal(TrimRight(s))
  {
    if s != "" && s[|s| - 1] == '_' {
      TrimRightKeeps(s[..|s| - 1]);
    }
  }

  lemma NormalizeIsNormal(name: string)
    ensures Normal(Normalize(name))
  {
    hide Collapsed, Collapse, TrimLeft, TrimRight, SplitWords, Normal;
    var s := Lower(SplitWords(name, 0));
    CollapseIsCollapsed(s, false);
    TrimLeftKeeps(Collapse(s, false));
    TrimRightKeeps(TrimLeft(Collapse(s, false)));
  }

  lemma {:induction false} NoCapitalsNoSplit(s: string, i: nat)
    requires i <= |s| && forall k :: 0 <= k < |s| ==> !IsUpper(s[k])
    ensures SplitWords(s, i) == s[i..]
    decreases |s| - i
  {
    if i < |s| {
      NoCapitalsNoSplit(s, i + 1);
      assert s[i..] == [s[i]] + s[i + 1..];
    }
  }

  lemma {:induction false} CollapseOfCollapsed(s: string, inRun: bool)
    requires Collapsed(s, inRun)
    ensures Collapse(s, inRun) == s
  {
    if s != "" {
      assert s == [s[0]] + s[1..];
      CollapseOfCollapsed(s[1..], !IsWordChar(s[0]));
    }
  }

  lemma LowerOfSmall(s: string)
    requires forall k :: 0 <= k < |s| ==> !IsUpper(s[k])
    ensures Lower(s) == s
  {
  }

  lemma NormalHasNoCapitals(s: string)
    requires Normal(s)
    ensures forall k :: 0 <= k < |s| ==> !IsUpper(s[k])
    ensures Collapsed(s, false) && TrimLeft(s) == s && TrimRight(s) == s
  {
  }

  /** Normalised names are exactly the names that normalisation leaves alone. */
  lemma NormalizeFixesExactlyNormal(s: string)
    ensures Normalize(s) == s <==> Normal(s)
  {
    hide Collapsed, Collapse, TrimLeft, TrimRight, SplitWords, Normal, Lower;
    NormalizeIsNormal(s);
    if Normal(s) {
      NormalHasNoCapitals(s);
      NoCapitalsNoSplit(s, 0);
      LowerOfSmall(s);
      CollapseOfCollapsed(s, false);
    }
  }

  lemma NormalizeIsIdempotent(name: string)
    ensures Normalize(Normalize(name)) == Normalize(name)
  {
    hide Normalize, Normal;
    NormalizeIsNormal(name);
    NormalizeFixesExactlyNormal(Normalize(name));
  }

  // ---------------------------------------------------------------- the words

  /** The segments of a token stand next to each other among those of a name. */
  predicate Run(token: seq<string>, name: seq<string>) {
    exists i :: 0 <= i <= |name| && RunAt(token, name, i)
  }

  predicate RunAt(token: seq<string>, name: seq<string>, i: int) {
    0 <= i <= |name| - |token| && name[i..i + |token|] == token
  }

  /** The search as it is done on the texts. */
  predicate ContainsToken(value: string, token: string, sep: char) {
    || value == token
    || StartsWith(value, token + [sep])
    || EndsWith(value, [sep] + token)
    || Contains(value, [sep] + token + [sep])
  }

  function Posts(segments: seq<string>, sep: char): string {
    if segments == [] then "" else [sep] + segments[0] + Posts(segments[1..], sep)
  }

  function Fence(segments: seq<string>, sep: char): string {
    Posts(segments, sep) + [sep]
  }

  lemma {:induction false} PostsOfConcat(a: seq<string>, b: seq<string>, sep: char)
    ensures Posts(a + b, sep) == Posts(a, sep) + Posts(b, sep)
  {
    if a == [] {
      assert a + b == b;
    } else {
      assert (a + b)[1..] == a[1..] + b;
      PostsOfConcat(a[1..], b, sep);
    }
  }

  lemma FenceCons(first: string, rest: seq<string>, sep: char)
    ensures Fence([first] + rest, sep) == [sep] + first + Fence(rest, sep)
  {
    assert ([first] + rest)[1..] == rest;
  }

  lemma Regroup(a: string, c: char, b: string)
    ensures [c] + a + ([c] + b + [c]) == [c] + (a + [c] + b) + [c]
  {
  }

  lemma {:induction false} FenceOfSplit(s: string, sep: char)
    ensures Fence(Split(s, sep), sep) == [sep] + s + [sep]
    decreases |s|
  {
    hide Fence, Split, UpTo, Behind;
    SplitStep(s, sep);
    if sep !in s {
      FenceCons(s, [], sep);
      FenceOfNothing(sep);
      assert [s] + [] == [s];
    } else {
      var h, t := UpTo(s, sep), Behind(s, sep);
      FenceOfSplit(t, sep);
      FenceCons(h, Split(t, sep), sep);
      Regroup(h, sep, t);
    }
  }

  lemma FenceOfNothing(sep: char)
    ensures Fence([], sep) == [sep]
  {
  }

  // -------------------------------------------------------------- the token test

  predicate Plain(segments: seq<string>, sep: char) {
    forall i :: 0 <= i < |segments| ==> sep !in segments[i]
  }

  /** Searching the text for a token is searching the fenced text. */
  lemma ContainsTokenIsFenced(value: string, token: string, sep: char)
    ensures ContainsToken(value, token, sep) <==> Contains([sep] + value + [sep], [sep] + token + [sep])
  {
    hide ContainsToken, Contains;
    if ContainsToken(value, token, sep) {
      TokenIsFenced(value, token, sep);
    }
    if Contains([sep] + value + [sep], [sep] + token + [sep]) {
      FencedIsToken(value, token, sep);
    }
  }

  lemma OccursMeansContains(s: string, t: string, i: int)
    requires OccursAt(s, t, i)
    ensures Contains(s, t)
  {
  }

  lemma TokenIsFenced(value: string, token: string, sep: char)
    requires ContainsToken(value, token, sep)
    ensures Contains([sep] + value + [sep], [sep] + token + [sep])
  {
    hide Contains;
    var v, t := [sep] + value + [sep], [sep] + token + [sep];
    if value == token {
      assert v[0..|t|] == t;
      OccursMeansContains(v, t, 0);
    } else if StartsWith(value, token + [sep]) {
      assert value[..|token| + 1] == token + [sep];
      assert v[0..|t|] == t;
      OccursMeansContains(v, t, 0);
    } else if EndsWith(value, [sep] + token) {
      var p := |value| - |token| - 1;
      assert value[p..] == [sep] + token;
      assert v[p + 1..p + 1 + |t|] == t;
      OccursMeansContains(v, t, p + 1);
    } else {
      InnerIsFenced(value, t, sep);
    }
  }

  lemma InnerIsFenced(value: string, t: string, sep: char)
    requires Contains(value, t)
    ensures Contains([sep] + value + [sep], t)
  {
    var i :| 0 <= i <= |value| && OccursAt(value, t, i);
    var v := [sep] + value + [sep];
    assert v[i + 1..i + 1 + |t|] == t;
    assert OccursAt(v, t, i + 1);
  }

  lemma FencedIsToken(value: string, token: string, sep: char)
    requires Contains([sep] + value + [sep], [sep] + token + [sep])
    ensures ContainsToken(value, token, sep)
  {
    var v, t := [sep] + value + [sep], [sep] + token + [sep];
    var i :| 0 <= i <= |v| && OccursAt(v, t, i);
    var end := i + |t|;
    if i == 0 && end == |v| {
      assert v[1..|v| - 1] == value && t[1..|t| - 1] == token;
    } else if i == 0 {
      assert t[1..] == token + [sep] && v[1..end] == value[..end - 1];
    } else if end == |v| {
      assert t[..|t| - 1] == [sep] + token && v[i..end - 1] == value[i - 1..];
      assert forall k :: 0 <= k < |token| + 1 ==> value[i - 1..][k] == ([sep] + token)[k];
    } else {
      assert value[i - 1..i - 1 + |t|] == v[i..end];
      assert OccursAt(value, t, i - 1);
    }
  }

  lemma {:induction false} FencePrefix(token: seq<string>, name: seq<string>, sep: char)
    requires Plain(token, sep) && Plain(name, sep) && Fence(token, sep) <= Fence(name, sep)
    ensures token <= name
  {
    if token != [] {
      var t, n := Fence(token, sep), Fence(name, sep);
      FenceCons(token[0], token[1..], sep);
      assert token == [token[0]] + token[1..];
      assert |t| >= 2;
      if name == [] {
        FenceOfNothing(sep);
      } else {
        FenceCons(name[0], name[1..], sep);
        assert name == [name[0]] + name[1..];
        FirstSegment(token[0], Fence(token[1..], sep), name[0], Fence(name[1..], sep), sep);
        FencePrefix(token[1..], name[1..], sep);
      }
    }
  }

  lemma FenceStarts(segments: seq<string>, sep: char)
    ensures Fence(segments, sep) != "" && Fence(segments, sep)[0] == sep
  {
  }

  lemma FirstSegment(a: string, restA: string, b: string, restB: string, sep: char)
    requires sep !in a && sep !in b
    requires restA != "" && restA[0] == sep && restB != "" && restB[0] == sep
    requires [sep] + a + restA <= [sep] + b + restB
    ensures a == b && restA <= restB
  {
    var s, t := [sep] + a + restA, [sep] + b + restB;
    assert s[1 + |a|] == sep && t[1 + |b|] == sep;
    assert forall i :: 0 <= i < |a| ==> s[1 + i] == a[i];
    assert forall i :: 0 <= i < |b| ==> t[1 + i] == b[i];
    assert |a| == |b|;
    assert a == s[1..1 + |a|] && b == t[1..1 + |b|];
    assert restA == s[1 + |a|..] && restB == t[1 + |b|..];
  }

  lemma FenceOfRun(token: seq<string>, name: seq<string>, sep: char)
    requires Run(token, name)
    ensures Contains(Fence(name, sep), Fence(token, sep))
  {
    hide Posts, Contains;
    var i :| 0 <= i <= |name| && RunAt(token, name, i);
    var pre, post := name[..i], name[i + |token|..];
    assert name == pre + (token + post);
    PostsOfConcat(pre, token + post, sep);
    PostsOfConcat(token, post, sep);
    FenceStarts(post, sep);
    var f, p := Fence(name, sep), |Posts(pre, sep)|;
    assert f == Posts(pre, sep) + (Posts(token, sep) + Fence(post, sep));
    assert f[p..p + |Fence(token, sep)|] == Fence(token, sep);
    OccursMeansContains(f, Fence(token, sep), p);
  }

  /** An occurrence behind the first post lies behind the first segment. */
  lemma OccursBehindFirst(first: string, rest: string, t: string, sep: char, p: nat)
    requires sep !in first && t != "" && t[0] == sep && p > 0
    requires OccursAt([sep] + first + rest, t, p)
    ensures p > |first| && OccursAt(rest, t, p - 1 - |first|)
  {
    var f := [sep] + first + rest;
    assert f[p] == f[p..p + |t|][0] == sep;
    assert forall k :: 0 < k <= |first| ==> f[k] == first[k - 1];
    var q := p - 1 - |first|;
    assert rest == f[1 + |first|..];
    assert rest[q..q + |t|] == f[p..p + |t|];
  }

  lemma {:induction false} RunOfFence(token: seq<string>, name: seq<string>, sep: char, p: nat) returns (i: nat)
    requires Plain(token, sep) && Plain(name, sep)
    requires OccursAt(Fence(name, sep), Fence(token, sep), p)
    ensures RunAt(token, name, i)
  {
    hide Fence;
    var f, t := Fence(name, sep), Fence(token, sep);
    FenceStarts(token, sep);
    FenceOfNothing(sep);
    if p == 0 {
      assert f[..|t|] == t;
      FencePrefix(token, name, sep);
      i := 0;
    } else {
      assert |f| > 1;
      assert name == [name[0]] + name[1..];
      FenceCons(name[0], name[1..], sep);
      OccursBehindFirst(name[0], Fence(name[1..], sep), t, sep, p);
      var j := RunOfFence(token, name[1..], sep, p - 1 - |name[0]|);
      i := j + 1;
      assert name[i..i + |token|] == name[1..][j..j + |token|];
    }
  }

  lemma ContainedIsRun(token: seq<string>, name: seq<string>, sep: char)
    requires Plain(token, sep) && Plain(name, sep)
    requires Contains(Fence(name, sep), Fence(token, sep))
    ensures Run(token, name)
  {
    hide Fence;
    var p :| 0 <= p <= |Fence(name, sep)| && OccursAt(Fence(name, sep), Fence(token, sep), p);
    var i := RunOfFence(token, name, sep, p);
  }

  /** The token test holds exactly when the token's segments are a contiguous run
      of the name's segments. */
  lemma TokenTestIsRun(value: string, token: string, sep: char)
    ensures ContainsToken(value, token, sep) <==> Run(Split(token, sep), Split(value, sep))
  {
    hide ContainsToken, Contains, Fence, Split, Run;
    ContainsTokenIsFenced(value, token, sep);
    FenceOfSplit(value, sep);
    FenceOfSplit(token, sep);
    var v, t := Split(value, sep), Split(token, sep);
    if Contains(Fence(v, sep), Fence(t, sep)) {
      ContainedIsRun(t, v, sep);
    }
    if Run(t, v) {
      FenceOfRun(t, v, sep);
    }
  }

  // ---------------------------------------------------------------- the slugs

  function Slug(s: string): string {
    seq(|s|, i requires 0 <= i < |s| => if s[i] == '_' then '-' else s[i])
  }

  function IdentitySlug(value: string): string {
    Slug(Normalize(value))
  }

  /** Slugs are cut into the same words at their dashes. */
  lemma {:induction false} SlugHasSameWords(s: string)
    requires '-' !in s
    ensures Split(Slug(s), '-') == Split(s, '_')
    decreases |s|
  {
    if '_' in s {
      UpToFinds(s, '_');
      var h, t := UpTo(s, '_'), Behind(s, '_');
      assert Slug(s) == h + ['-'] + Slug(t);
      UpToStopsAt(h, '-', Slug(t));
      SlugHasSameWords(t);
      assert Slug(s)[|h|] == '-';
    } else {
      assert Slug(s) == s;
    }
  }

  /** The words of a name. */
  function Words(name: string): seq<string> {
    Split(Normalize(name), '_')
  }

  lemma NormalHasNoDash(name: string)
    ensures '-' !in Normalize(name)
  {
    hide Normalize;
    NormalizeIsNormal(name);
  }

  /** One identity is found in another name exactly when its words stand next to
      each other there. */
  lemma SlugTestIsRun(value: string, identity: string)
    ensures ContainsToken(IdentitySlug(value), IdentitySlug(identity), '-') <==> Run(Words(identity), Words(value))
  {
    hide ContainsToken, Split, Normalize, Slug, Run;
    NormalHasNoDash(value);
    NormalHasNoDash(identity);
    SlugHasSameWords(Normalize(value));
    SlugHasSameWords(Normalize(identity));
    TokenTestIsRun(IdentitySlug(value), IdentitySlug(identity), '-');
  }
}
