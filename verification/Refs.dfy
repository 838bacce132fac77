/** The public-reference sanitizers of the batch carrier: which identifiers,
    reference aliases and free texts may leave Core, and why every identifier
    Core assembles from accepted parts is accepted again. */
module Refs {
  import opened Text

  /** Location and query signs, rejected anywhere inside any public text. */
  const LOCATION_TOKENS: seq<string> := [
    "http://", "https://", "s3://", "gs://", "storage://", "file://",
    "/tmp/", "/var/", "/etc/", "/home/", "/users/", "\\", "token="
  ]

  /** Words that are also rejected anywhere inside a reference. */
  const PRIVATE_REF_WORDS: seq<string> := [
    "secret", "credential", "signed", "bucket", "download", "selector",
    "fallback", "marketplace", "account-pool", "proxy-pool"
  ]

  /** Words that are also rejected anywhere inside a provider path. */
  const PRIVATE_PATH_WORDS: seq<string> := [
    "private", "download", "bucket", "raw", "credential", "secret", "signed",
    "storage-handle", "route", "routing", "fallback", "marketplace",
    "account-pool", "proxy-pool"
  ]

  predicate ContainsAny(s: string, tokens: seq<string>) {
    exists k :: 0 <= k < |tokens| && Contains(s, tokens[k])
  }

  predicate WindowsAbsolute(s: string) {
    |s| >= 3 && s[1] == ':' && IsAlpha(s[0]) && s[2] in {'/', '\\'}
  }

  predicate RelativePath(s: string) {
    var l := Lower(s);
    || StartsWith(l, "../") || StartsWith(l, "./")
    || Contains(l, "/../") || Contains(l, "/./")
    || EndsWith(l, "/..") || EndsWith(l, "/.")
    || ('/' in s && !Contains(s, "://"))
  }

  predicate NonEmpty(s: string) { Strip(s) != [] }

  /** A reference that passes the sanitizer: not blank, no surrounding white
      space, no local or relative path, no private or storage token. */
  predicate Sanitized(s: string) {
    && NonEmpty(s)
    && Strip(s) == s
    && !StartsWith(s, "/")
    && !WindowsAbsolute(s)
    && !RelativePath(s)
    && !ContainsAny(Lower(s), LOCATION_TOKENS)
    && !ContainsAny(Lower(s), PRIVATE_REF_WORDS)
  }

  /** A free text that passes the public-payload string check. */
  predicate PublicString(s: string) {
    var t := Strip(s);
    && !StartsWith(t, "/")
    && !WindowsAbsolute(t)
    && !RelativePath(t)
    && !ContainsAny(Lower(t), LOCATION_TOKENS)
  }

  predicate SearchKeyword(s: string) {
    var t := Strip(s);
    && !StartsWith(t, "/")
    && !StartsWith(t, "\\")
    && !WindowsAbsolute(t)
    && !ContainsAny(Lower(t), LOCATION_TOKENS)
  }

  predicate ProviderPath(s: string) {
    && NonEmpty(s)
    && Strip(s) == s
    && !StartsWith(s, "/")
    && !WindowsAbsolute(s)
    && !RelativePath(s)
    && !ContainsAny(Lower(s), LOCATION_TOKENS)
    && !ContainsAny(Lower(s), PRIVATE_PATH_WORDS)
  }

  /** Search keywords are free texts; every other target is a reference. */
  predicate TargetRef(operation: string, s: string) {
    NonEmpty(s) && if operation == "content_search_by_keyword" then SearchKeyword(s) else Sanitized(s)
  }

  // ---------------------------------------------------------------- closure

  /** In every forbidden token a colon is followed by a slash. */
  predicate ColonThenSlash(t: string) {
    forall k :: 0 <= k < |t| && t[k] == ':' ==> k + 1 < |t| && t[k + 1] == '/'
  }

  lemma TokensAreColonThenSlash()
    ensures forall k :: 0 <= k < |LOCATION_TOKENS| ==> ColonThenSlash(LOCATION_TOKENS[k])
  {
  }

  lemma WordsAreColonThenSlash()
    ensures forall k :: 0 <= k < |PRIVATE_REF_WORDS| ==> ColonThenSlash(PRIVATE_REF_WORDS[k])
  {
  }

  /** A token that straddles the joining colon makes the second part start
      with a slash; any other token lies in one of the two parts. */
  lemma TokenInJoin(a: string, b: string, t: string)
    requires ColonThenSlash(t)
    requires Contains(Join(a, b), t)
    ensures Contains(a, t) || Contains(b, t) || StartsWith(b, "/")
  {
    var s := Join(a, b);
    var i :| 0 <= i <= |s| && OccursAt(s, t, i);
    if i + |t| <= |a| {
      assert a[i..i + |t|] == s[i..i + |t|];
      assert OccursAt(a, t, i);
    } else if |a| < i {
      var j := i - |a| - 1;
      assert forall m :: 0 <= m < |b| ==> s[|a| + 1 + m] == b[m];
      assert b[j..j + |t|] == s[i..i + |t|];
      assert OccursAt(b, t, j);
    } else {
      var k := |a| - i;
      assert s[i..i + |t|][k] == ':';
      assert s[i..i + |t|][k + 1] == s[|a| + 1] == b[0];
    }
  }

  lemma SlashPrefixOfLower(s: string)
    ensures StartsWith(Lower(s), "/") <==> StartsWith(s, "/")
  {
  }

  lemma LowerJoin(a: string, b: string)
    ensures Lower(Join(a, b)) == Join(Lower(a), Lower(b))
  {
    LowerConcat(a + ":", b);
    LowerConcat(a, ":");
  }

  lemma TokensOfJoin(a: string, b: string, tokens: seq<string>)
    requires forall k :: 0 <= k < |tokens| ==> ColonThenSlash(tokens[k])
    requires !StartsWith(b, "/")
    requires !ContainsAny(Lower(a), tokens) && !ContainsAny(Lower(b), tokens)
    ensures !ContainsAny(Lower(Join(a, b)), tokens)
  {
    LowerJoin(a, b);
    SlashPrefixOfLower(b);
    forall k | 0 <= k < |tokens|
      ensures !Contains(Lower(Join(a, b)), tokens[k])
    {
      if Contains(Join(Lower(a), Lower(b)), tokens[k]) {
        TokenInJoin(Lower(a), Lower(b), tokens[k]);
      }
    }
  }

  lemma ContainsPart(pre: string, part: string, post: string, t: string)
    requires Contains(part, t)
    ensures Contains(pre + part + post, t)
  {
    var i :| 0 <= i <= |part| && OccursAt(part, t, i);
    var s := pre + part + post;
    assert s[|pre| + i..|pre| + i + |t|] == part[i..i + |t|];
    assert OccursAt(s, t, |pre| + i);
  }

  lemma SchemeOfJoin(a: string, b: string)
    requires '/' in a ==> Contains(a, "://")
    requires '/' in b ==> Contains(b, "://")
    requires '/' in Join(a, b)
    ensures Contains(Join(a, b), "://")
  {
    if '/' in a {
      ContainsPart("", a, ":" + b, "://");
      assert "" + a + (":" + b) == Join(a, b);
    } else {
      ContainsPart(a + ":", b, "", "://");
      assert (a + ":") + b + "" == Join(a, b);
    }
  }

  lemma PrefixOfJoin(a: string, b: string, t: string)
    requires ':' !in t && StartsWith(Join(a, b), t)
    ensures StartsWith(a, t)
  {
    assert Join(a, b)[|a|] == ':';
    assert forall i :: 0 <= i < |t| ==> Join(a, b)[i] == t[i] != ':';
  }

  lemma SuffixOfJoin(a: string, b: string, t: string)
    requires ':' !in t && EndsWith(Join(a, b), t)
    ensures EndsWith(b, t)
  {
    var s := Join(a, b);
    assert s[|a|] == ':';
    assert forall i :: |s| - |t| <= i < |s| ==> s[i] == t[i - (|s| - |t|)] != ':';
    forall i | 0 <= i < |t|
      ensures b[|b| - |t| + i] == t[i]
    {
      assert s[|s| - |t| + i] == t[i];
    }
  }

  lemma RelativePathOfJoin(a: string, b: string)
    requires RelativePath(Join(a, b))
    ensures RelativePath(a) || RelativePath(b) || StartsWith(b, "/")
  {
    var l, la, lb := Lower(Join(a, b)), Lower(a), Lower(b);
    LowerJoin(a, b);
    SlashPrefixOfLower(b);
    if StartsWith(l, "../") {
      PrefixOfJoin(la, lb, "../");
    } else if StartsWith(l, "./") {
      PrefixOfJoin(la, lb, "./");
    } else if Contains(l, "/../") {
      TokenInJoin(la, lb, "/../");
    } else if Contains(l, "/./") {
      TokenInJoin(la, lb, "/./");
    } else if EndsWith(l, "/..") {
      SuffixOfJoin(la, lb, "/..");
    } else if EndsWith(l, "/.") {
      SuffixOfJoin(la, lb, "/.");
    } else if !RelativePath(a) && !RelativePath(b) {
      SchemeOfJoin(a, b);
    }
  }

  lemma WindowsAbsoluteJoin(a: string, b: string)
    requires a != [] && WindowsAbsolute(Join(a, b))
    ensures WindowsAbsolute(a) || StartsWith(b, "/") || StartsWith(b, "\\")
  {
    var s := Join(a, b);
    assert a[0] == s[0];
    if |a| == 1 {
      assert s[2] == b[0];
    } else {
      assert a[1] == s[1];
      assert forall i :: 0 <= i < |a| ==> s[i] == a[i];
      assert s[|a|] == ':';
    }
  }

  lemma JoinIsTrimmed(a: string, b: string)
    requires NonEmpty(a) && Strip(a) == a && NonEmpty(b) && Strip(b) == b
    ensures NonEmpty(Join(a, b)) && Strip(Join(a, b)) == Join(a, b)
    ensures StartsWith(Join(a, b), "/") <==> StartsWith(a, "/")
  {
    hide Strip;
    var s := Join(a, b);
    StripIsTrimmed(a);
    StripIsTrimmed(b);
    assert s[0] == a[0] && s[|s| - 1] == b[|b| - 1];
    StripOfTrimmed(s);
  }

  lemma JoinHasNoTokens(a: string, b: string)
    requires Sanitized(a) && Sanitized(b)
    ensures !ContainsAny(Lower(Join(a, b)), LOCATION_TOKENS) && !ContainsAny(Lower(Join(a, b)), PRIVATE_REF_WORDS)
  {
    hide ContainsAny, RelativePath, WindowsAbsolute, Strip, Join, Lower;
    TokensAreColonThenSlash();
    WordsAreColonThenSlash();
    TokensOfJoin(a, b, LOCATION_TOKENS);
    TokensOfJoin(a, b, PRIVATE_REF_WORDS);
  }

  lemma JoinIsNoPath(a: string, b: string)
    requires a != [] && Sanitized(a) && Sanitized(b)
    ensures !RelativePath(Join(a, b)) && !WindowsAbsolute(Join(a, b))
  {
    hide ContainsAny, RelativePath, WindowsAbsolute, Strip, Join, Lower;
    BackslashIsForbidden(b);
    if RelativePath(Join(a, b)) {
      RelativePathOfJoin(a, b);
    }
    if WindowsAbsolute(Join(a, b)) {
      WindowsAbsoluteJoin(a, b);
    }
  }

  /** Two accepted references joined by a colon are an accepted reference. */
  lemma JoinSanitized(a: string, b: string)
    requires Sanitized(a) && Sanitized(b)
    ensures Sanitized(Join(a, b))
  {
    hide ContainsAny, RelativePath, WindowsAbsolute, Strip, Join, Lower;
    JoinIsTrimmed(a, b);
    JoinHasNoTokens(a, b);
    JoinIsNoPath(a, b);
  }

  lemma BackslashIsForbidden(s: string)
    ensures StartsWith(s, "\\") ==> !Sanitized(s)
  {
    if StartsWith(s, "\\") {
      assert Lower(s)[0..1] == "\\";
      assert OccursAt(Lower(s), "\\", 0);
      assert LOCATION_TOKENS[11] == "\\";
    }
  }

  /** Every accepted reference is also an acceptable free text. */
  lemma SanitizedIsPublic(s: string)
    requires Sanitized(s)
    ensures PublicString(s)
  {
  }

  // ------------------------------------------------------------- known atoms

  /** A character of every text token that a plain word lacks. */
  predicate Plain(s: string) {
    '/' !in s && '\\' !in s && '=' !in s
  }

  /** A text without slash, backslash or equals sign is always public. */
  lemma PlainIsPublic(s: string)
    requires Plain(s)
    ensures PublicString(s)
  {
    var t := Strip(s);
    StripIsPart(s);
    var l := Lower(t);
    assert Plain(t);
    assert Plain(l) by { LowerKeepsPlain(t); }
    NoLocationTokens(l);
    PlainIsNotRelative(t);
  }

  /** Contract codes and reasons are lower-case words joined by underscores. */
  predicate CodeText(s: string) {
    forall i :: 0 <= i < |s| ==> IsLower(s[i]) || s[i] == '_'
  }

  lemma CodeIsPublic(s: string)
    requires CodeText(s)
    ensures PublicString(s)
  {
    PlainIsPublic(s);
  }

  lemma NoLocationTokens(s: string)
    requires Plain(s)
    ensures !ContainsAny(s, LOCATION_TOKENS)
  {
    forall k | 0 <= k < |LOCATION_TOKENS|
      ensures !Contains(s, LOCATION_TOKENS[k])
    {
      var c := LocationMark(k);
      LacksCharacter(s, LOCATION_TOKENS[k], c);
    }
  }

  lemma LacksCharacter(s: string, t: string, c: char)
    requires c in t && c !in s
    ensures !Contains(s, t)
  {
    if Contains(s, t) {
      CharactersOfContained(s, t, c);
    }
  }

  lemma StripIsPart(s: string)
    ensures forall c :: c in Strip(s) ==> c in s
  {
    hide StripLeft, StripRight, IsSpace;
    var l := StripLeft(s);
    var r := StripRight(l);
    forall c | c in r
      ensures c in s
    {
      var i :| 0 <= i < |r| && r[i] == c;
      assert l[i] == c;
      assert s[|s| - |l| + i] == c;
    }
  }

  lemma LowerKeepsPlain(s: string)
    requires Plain(s)
    ensures Plain(Lower(s))
  {
  }

  lemma PlainIsNotRelative(s: string)
    requires '/' !in s
    ensures !RelativePath(s)
  {
    var l := Lower(s);
    assert '/' !in l;
    if Contains(l, "/../") {
      CharactersOfContained(l, "/../", '/');
    }
    if Contains(l, "/./") {
      CharactersOfContained(l, "/./", '/');
    }
    assert |l| >= 3 ==> l[2] != '/' && l[|l| - 3] != '/';
    assert |l| >= 2 ==> l[1] != '/' && l[|l| - 2] != '/';
    assert |l| >= 3 ==> l[|l| - 3 + 0] != "/.."[0];
    assert |l| >= 2 ==> l[|l| - 2 + 0] != "/."[0];
  }

  /** The character that no plain text has. */
  lemma LocationMark(k: int) returns (c: char)
    requires 0 <= k < |LOCATION_TOKENS|
    ensures c in {'/', '\\', '='} && c in LOCATION_TOKENS[k]
  {
    var t := LOCATION_TOKENS[k];
    if t == "\\" {
      assert t[0] == '\\';
      c := '\\';
    } else if t == "token=" {
      assert t[5] == '=';
      c := '=';
    } else {
      assert t[0] == '/' || t[|t| - 1] == '/';
      c := '/';
    }
  }

  /** An alphabet that misses, for each private word, the letter at the marked
      position of that word. */
  predicate MissesWords(alphabet: set<char>, marks: seq<nat>) {
    && |marks| == |PRIVATE_REF_WORDS|
    && forall k :: 0 <= k < |marks| ==>
         marks[k] < |PRIVATE_REF_WORDS[k]| && PRIVATE_REF_WORDS[k][marks[k]] !in alphabet
  }

  /** A text over such an alphabet cannot hold a private word. */
  lemma LetterMarkedWord(s: string, alphabet: set<char>, marks: seq<nat>)
    requires s != [] && forall i :: 0 <= i < |s| ==> s[i] in alphabet
    requires forall c :: c in alphabet ==> !IsUpper(c) && !IsSpace(c) && c !in {'/', '\\', '='}
    requires MissesWords(alphabet, marks)
    ensures Sanitized(s)
  {
    StripOfTrimmed(s);
    PlainIsNotRelative(s);
    var l := Lower(s);
    assert l == s;
    NoLocationTokens(s);
    forall k | 0 <= k < |PRIVATE_REF_WORDS|
      ensures !Contains(l, PRIVATE_REF_WORDS[k])
    {
      LacksCharacter(l, PRIVATE_REF_WORDS[k], PRIVATE_REF_WORDS[k][marks[k]]);
    }
  }

  lemma ResumePrefix()
    ensures Sanitized("resume")
  {
    LetterMarkedWord("resume", {'e', 'm', 'r', 's', 'u'}, [2, 0, 1, 0, 0, 2, 0, 1, 0, 0]);
  }

  lemma DatasetPrefix()
    ensures Sanitized("dataset")
  {
    LetterMarkedWord("dataset", {'a', 'd', 'e', 's', 't'}, [2, 0, 1, 0, 1, 2, 0, 0, 1, 0]);
  }

  lemma AuditPrefix()
    ensures Sanitized("audit")
  {
    LetterMarkedWord("audit", {'a', 'd', 'i', 't', 'u'}, [0, 0, 0, 0, 1, 0, 0, 0, 1, 0]);
  }

  lemma BatchPrefix()
    ensures Sanitized("batch")
  {
    LetterMarkedWord("batch", {'a', 'b', 'c', 'h', 't'}, [0, 1, 0, 1, 0, 0, 0, 0, 3, 0]);
  }

  lemma EvidencePrefix()
    ensures Sanitized("evidence")
  {
    LetterMarkedWord("evidence", {'c', 'd', 'e', 'i', 'n', 'v'}, [0, 1, 0, 0, 1, 0, 0, 0, 0, 0]);
  }

  lemma ExecutionTimeoutCode()
    ensures Sanitized("execution_timeout")
  {
    LetterMarkedWord("execution_timeout", {'_', 'c', 'e', 'i', 'm', 'n', 'o', 't', 'u', 'x'}, [0, 1, 0, 0, 0, 0, 0, 1, 0, 0]);
  }

  lemma ExecutionCancelledCode()
    ensures Sanitized("execution_cancelled")
  {
    LetterMarkedWord("execution_cancelled", {'_', 'a', 'c', 'd', 'e', 'i', 'l', 'n', 'o', 't', 'u', 'x'}, [0, 1, 0, 0, 2, 0, 0, 0, 7, 0]);
  }

  lemma TaskCancelledCode()
    ensures Sanitized("task_cancelled")
  {
    LetterMarkedWord("task_cancelled", {'_', 'a', 'c', 'd', 'e', 'k', 'l', 'n', 's', 't'}, [3, 1, 1, 0, 1, 6, 0, 0, 3, 0]);
  }

  lemma CancelledCode()
    ensures Sanitized("cancelled")
  {
    LetterMarkedWord("cancelled", {'a', 'c', 'd', 'e', 'l', 'n'}, [0, 1, 0, 0, 1, 0, 0, 0, 3, 0]);
  }

  lemma DecimalIsSanitized(n: nat)
    ensures Sanitized(Decimal(n))
  {
    LetterMarkedWord(Decimal(n), {'0', '1', '2', '3', '4', '5', '6', '7', '8', '9'}, [0, 0, 0, 0, 0, 0, 0, 0, 0, 0]);
  }
}
