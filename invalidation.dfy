/**
 * Which cached results a comment write invalidates.
 *
 * Every write (add, update, delete) evicts two families of keys of its
 * author within its application: by prefix, the author's thread listings
 * (`comments:user:<author>:app:<app>`), and by wildcard, the author's
 * comment pages (`comments:app:<app>:parent:*:sentiment:*:user:<author>:*`).
 * The theorems here show that these two patterns select exactly the
 * listing and page keys of that (application, author) pair among all keys
 * the system builds: no key of another author, another application or
 * another family (the comment tree included) is evicted.
 */
module Invalidation {
  import opened Wrappers
  import opened Text
  import opened CacheKeys
  import opened CaffeineCache

  /** The prefix a write evicts for the author's thread listings. */
  function ListingsPrefix(applicationId: string, userId: string): string {
    "comments:user:" + (userId + (":app:" + applicationId))
  }

  /** The wildcard pattern a write evicts for the author's comment pages. */
  function PagesPattern(applicationId: string, userId: string): string {
    "comments:app:" + (applicationId + (":parent:" + ("*" + (":sentiment:" + ("*" + (":user:" + (userId + (":" + "*"))))))))
  }

  /** Whether a write by `userId` in `applicationId` evicts `key`. */
  predicate EvictedByWrite(applicationId: string, userId: string, key: string) {
    Matches(ListingsPrefix(applicationId, userId), key) || Matches(PagesPattern(applicationId, userId), key)
  }

  /** The cached results a write is meant to invalidate: the author's listings and pages in the application. */
  predicate OwnedBy(applicationId: Uuid, userId: Uuid, k: CacheKey) {
    (k.UserComments? || k.Comments?) && k.app == applicationId && k.user == userId
  }

  // Prefix facts.

  lemma PrefixSplit(x: string, y: string, x': string, y': string)
    requires |x| == |x'| && StartsWith(x + y, x' + y')
    ensures x == x' && StartsWith(y, y')
  {
    var k := x + y;
    assert k[..|x|] == x && (x' + y')[..|x|] == x';
    assert k[..|x| + |y'|][..|x|] == k[..|x|];
    assert y[..|y'|] == k[..|x| + |y'|][|x|..];
  }

  lemma PrefixCons(h: string, y: string, y': string)
    requires StartsWith(y, y')
    ensures StartsWith(h + y, h + y')
  {
    assert (h + y)[..|h| + |y'|] == h + y[..|y'|];
  }

  lemma PrefixOfPrefix(k: string, h: string, x: string)
    requires StartsWith(k, h + x)
    ensures StartsWith(k, h)
  {
    assert k[..|h|] == k[..|h| + |x|][..|h|];
  }

  /** The listings prefix is the builder's user pattern narrowed to one application. */
  lemma ListingsPrefixNarrowsUserPattern(a: string, u: string)
    ensures StartsWith(ListingsPrefix(a, u), UserCommentsPattern(u))
  {
    PrefixCons("comments:user:", u + (":app:" + a), u);
  }

  /** Every thread listing of the author in the application starts with the prefix. */
  lemma ListingsPrefixCovers(a: Uuid, u: Uuid, s: Option<int>, p: int, z: int)
    ensures StartsWith(UserCommentsKey(a, u, s, p, z), ListingsPrefix(a, u))
  {
    var rest := ":sentiment:" + (OptIntText(s) + (":page:" + (IntText(p) + (":" + IntText(z)))));
    assert StartsWith(a + rest, a);
    PrefixCons(":app:", a + rest, a);
    PrefixCons(u, ":app:" + (a + rest), ":app:" + a);
    PrefixCons("comments:user:", u + (":app:" + (a + rest)), u + (":app:" + a));
  }

  /** A key that starts with the prefix is a thread listing of the author in the application. */
  lemma ListingsPrefixFields(a: Uuid, u: Uuid, k: CacheKey)
    requires StartsWith(Render(k), ListingsPrefix(a, u))
    ensures k.UserComments? && k.app == a && k.user == u
  {
    var key := Render(k);
    PrefixOfPrefix(key, "comments:user:", u + (":app:" + a));
    FamilyOfRender(k);
    var rest := ":sentiment:" + (OptIntText(k.sentiment) + (":page:" + (IntText(k.page) + (":" + IntText(k.size)))));
    var tail := ":app:" + (k.app + rest);
    PrefixSplit("comments:user:", k.user + tail, "comments:user:", u + (":app:" + a));
    PrefixSplit(k.user, tail, u, ":app:" + a);
    PrefixSplit(":app:", k.app + rest, ":app:", a);
    assert k.app == (k.app + rest)[..36];
  }

  /** The prefix selects exactly the author's thread listings in the application. */
  lemma ListingsPrefixSelects(a: Uuid, u: Uuid, k: CacheKey)
    ensures Matches(ListingsPrefix(a, u), Render(k)) <==> k.UserComments? && k.app == a && k.user == u
  {
    UuidIsColonFree(a);
    UuidIsColonFree(u);
    assert '*' !in ListingsPrefix(a, u);
    if StartsWith(Render(k), ListingsPrefix(a, u)) {
      ListingsPrefixFields(a, u, k);
    }
    if k.UserComments? && k.app == a && k.user == u {
      ListingsPrefixCovers(a, u, k.sentiment, k.page, k.size);
    }
  }

  // Facts about "no `xy` pair" and "no line terminator" over joined texts.

  lemma NoPairJoin(s: string, t: string, x: char, y: char)
    requires NoPair(s, x, y) && NoPair(t, x, y)
    requires |s| > 0 && |t| > 0 ==> !(s[|s| - 1] == x && t[0] == y)
    ensures NoPair(s + t, x, y)
  {
    var st := s + t;
    forall j | 0 <= j < |st| - 1 ensures !(st[j] == x && st[j + 1] == y) {
      if j >= |s| {
        assert st[j] == t[j - |s|] && st[j + 1] == t[j + 1 - |s|];
      } else if j < |s| - 1 {
        assert st[j] == s[j] && st[j + 1] == s[j + 1];
      }
    }
  }

  lemma NoLineTerminatorJoin(s: string, t: string)
    requires NoLineTerminator(s) && NoLineTerminator(t)
    ensures NoLineTerminator(s + t)
  {
    var st := s + t;
    forall i | 0 <= i < |st| ensures !IsLineTerminator(st[i]) {
      if i >= |s| {
        assert st[i] == t[i - |s|];
      }
    }
  }

  /** The decimal text of an int: no ':', no line terminator, and it starts with '-' or a digit. */
  lemma IntTextShape(n: int)
    ensures ColonFree(IntText(n)) && NoLineTerminator(IntText(n))
    ensures IntText(n)[0] == '-' || IsDigit(IntText(n)[0])
  {
    var s := IntText(n);
    IntTextIsColonFree(n);
    forall i | 0 <= i < |s| ensures !IsLineTerminator(s[i]) {
      assert i == 0 || IsDigit(s[i]);
    }
  }

  lemma OptIntTextShape(n: Option<int>)
    ensures ColonFree(OptIntText(n)) && NoLineTerminator(OptIntText(n))
    ensures |OptIntText(n)| > 0 && OptIntText(n)[0] != 's' && OptIntText(n)[0] != 'u'
  {
    if n.Some? {
      IntTextShape(n.value);
    }
  }

  lemma UuidShape(u: Uuid)
    ensures ColonFree(u) && NoLineTerminator(u) && u[0] != 's' && u[0] != 'u'
  {
    UuidIsColonFree(u);
    forall i | 0 <= i < |u| ensures !IsLineTerminator(u[i]) {
      assert i == 8 || i == 13 || i == 18 || i == 23 || IsHexDigit(u[i]);
    }
    assert IsHexDigit(u[0]);
  }

  lemma UuidOrNullShape(pa: Option<Uuid>)
    ensures ColonFree(UuidOrNull(pa)) && NoLineTerminator(UuidOrNull(pa))
  {
    if pa.Some? {
      UuidShape(pa.value);
    }
  }

  /** `:page:<page>:<size>`, the tail of a comment page key. */
  function PageTail(p: int, z: int): string {
    ":page:" + (IntText(p) + (":" + IntText(z)))
  }

  lemma PageTailShape(p: int, z: int, y: char)
    requires y == 's' || y == 'u'
    ensures NoPair(PageTail(p, z), ':', y) && NoLineTerminator(PageTail(p, z)[1..])
  {
    var P, Z := IntText(p), IntText(z);
    IntTextShape(p);
    IntTextShape(z);
    NoPairJoin(":", Z, ':', y);
    NoPairJoin(P, ":" + Z, ':', y);
    NoPairJoin(":page:", P + (":" + Z), ':', y);
    NoLineTerminatorJoin(":", Z);
    NoLineTerminatorJoin(P, ":" + Z);
    NoLineTerminatorJoin("page:", P + (":" + Z));
    assert PageTail(p, z)[1..] == "page:" + (P + (":" + Z));
  }

  /** `user:<user>:page:<page>:<size>`: no ":u" in it. */
  lemma UserTailShape(u: Uuid, p: int, z: int)
    ensures NoPair("user:" + (u + PageTail(p, z)), ':', 'u')
  {
    UuidShape(u);
    PageTailShape(p, z, 'u');
    NoPairJoin(u, PageTail(p, z), ':', 'u');
    NoPairJoin("user:", u + PageTail(p, z), ':', 'u');
  }

  /** `sentiment:<sentiment>:user:<user>:page:<page>:<size>`: no ":s" in it. */
  lemma SentimentTailShape(s: Option<int>, u: Uuid, p: int, z: int)
    ensures NoPair("sentiment:" + (OptIntText(s) + (":user:" + (u + PageTail(p, z)))), ':', 's')
  {
    var S := OptIntText(s);
    UuidShape(u);
    OptIntTextShape(s);
    PageTailShape(p, z, 's');
    NoPairJoin(u, PageTail(p, z), ':', 's');
    NoPairJoin(":user:", u + PageTail(p, z), ':', 's');
    NoPairJoin(S, ":user:" + (u + PageTail(p, z)), ':', 's');
    NoPairJoin("sentiment:", S + (":user:" + (u + PageTail(p, z))), ':', 's');
  }

  /** A '*'-free head followed by a match is a match. */
  lemma LiteralThen(lit: string, p: string, k: string)
    requires '*' !in lit && GlobMatch(p, k)
    ensures GlobMatch(lit + p, lit + k)
  {
    GlobLiteralPrefix(lit, p, lit + k);
    assert (lit + k)[..|lit|] == lit && (lit + k)[|lit|..] == k;
  }

  /**
   * The text of a comment page key, read against a pattern of the shape of
   * the write path's: both wildcards are anchored by the field names that
   * follow them, so a match fixes the application and the author, and the
   * pattern's tail `rest` must match the key's page tail.
   */
  lemma PagesGlobFields(a: Uuid, u: Uuid, rest: string, a': Uuid, pa: Option<Uuid>, s: Option<int>, u': Uuid, p: int, z: int)
    requires GlobMatch("comments:app:" + (a + (":parent:" + ("*" + (":sentiment:" + ("*" + (":user:" + (u + rest))))))),
                       CommentsKey(a', UuidOrNull(pa), s, u', p, z))
    ensures a == a' && u == u' && GlobMatch(rest, PageTail(p, z))
  {
    var PA, S, W := UuidOrNull(pa), OptIntText(s), PageTail(p, z);
    var key := CommentsKey(a', PA, s, u', p, z);
    UuidIsColonFree(a);
    UuidIsColonFree(u);
    var p1 := a + (":parent:" + ("*" + (":sentiment:" + ("*" + (":user:" + (u + rest))))));
    GlobLiteralPrefix("comments:app:", p1, key);
    var k1 := a' + (":parent:" + (PA + (":sentiment:" + (S + (":user:" + (u' + W))))));
    assert key[13..] == k1;
    var p2 := ":parent:" + ("*" + (":sentiment:" + ("*" + (":user:" + (u + rest)))));
    GlobLiteralPrefix(a, p2, k1);
    assert k1[..36] == a';
    var k2 := ":parent:" + (PA + (":sentiment:" + (S + (":user:" + (u' + W)))));
    assert k1[36..] == k2;
    var p3 := "*" + (":sentiment:" + ("*" + (":user:" + (u + rest))));
    GlobLiteralPrefix(":parent:", p3, k2);
    var k3 := PA + (":sentiment:" + (S + (":user:" + (u' + W))));
    assert k2[8..] == k3;
    UuidOrNullShape(pa);
    SentimentTailShape(s, u', p, z);
    assert ":sentiment:"[1..] + (S + (":user:" + (u' + W))) == "sentiment:" + (S + (":user:" + (u' + W)));
    StarAnchored(":sentiment:", "*" + (":user:" + (u + rest)), PA, S + (":user:" + (u' + W)));
    OptIntTextShape(s);
    UserTailShape(u', p, z);
    assert ":user:"[1..] + (u' + W) == "user:" + (u' + W);
    StarAnchored(":user:", u + rest, S, u' + W);
    GlobLiteralPrefix(u, rest, u' + W);
    assert (u' + W)[..36] == u' && (u' + W)[36..] == W;
  }

  /** The wildcard pattern selects exactly the author's comment pages in the application. */
  lemma PagesPatternSelects(a: Uuid, u: Uuid, k: CacheKey)
    ensures Matches(PagesPattern(a, u), Render(k)) <==> k.Comments? && k.app == a && k.user == u
  {
    var pattern := PagesPattern(a, u);
    var key := Render(k);
    assert pattern[57] == '*';
    var p1 := a + (":parent:" + ("*" + (":sentiment:" + ("*" + (":user:" + (u + (":" + "*")))))));
    if GlobMatch(pattern, key) {
      GlobLiteralPrefix("comments:app:", p1, key);
      assert key == "comments:app:" + key[13..];
      FamilyOfHead("comments:app:", key[13..]);
      FamilyOfRender(k);
      PagesGlobFields(a, u, ":" + "*", k.app, k.parent, k.sentiment, k.user, k.page, k.size);
    }
    if k.Comments? && k.app == a && k.user == u {
      PagesPatternCovers(a, u, k.parent, k.sentiment, k.page, k.size);
    }
  }

  /** Every comment page key of the author in the application matches the wildcard pattern. */
  lemma PagesPatternCovers(a: Uuid, u: Uuid, pa: Option<Uuid>, s: Option<int>, p: int, z: int)
    ensures GlobMatch(PagesPattern(a, u), CommentsKey(a, UuidOrNull(pa), s, u, p, z))
  {
    var PA, S, W := UuidOrNull(pa), OptIntText(s), PageTail(p, z);
    UuidIsColonFree(a);
    UuidIsColonFree(u);
    UuidOrNullShape(pa);
    OptIntTextShape(s);
    PageTailShape(p, z, 's');
    StarAlone(W[1..]);
    assert GlobMatch(":" + "*", W) by {
      LiteralThen(":", "*", W[1..]);
      assert ":" + W[1..] == W;
    }
    LiteralThen(u, ":" + "*", W);
    LiteralThen(":user:", u + (":" + "*"), u + W);
    StarTakes(S, ":user:" + (u + (":" + "*")), ":user:" + (u + W));
    LiteralThen(":sentiment:", "*" + (":user:" + (u + (":" + "*"))), S + (":user:" + (u + W)));
    StarTakes(PA, ":sentiment:" + ("*" + (":user:" + (u + (":" + "*")))), ":sentiment:" + (S + (":user:" + (u + W))));
    LiteralThen(":parent:", "*" + (":sentiment:" + ("*" + (":user:" + (u + (":" + "*"))))),
      PA + (":sentiment:" + (S + (":user:" + (u + W)))));
    LiteralThen(a, ":parent:" + ("*" + (":sentiment:" + ("*" + (":user:" + (u + (":" + "*")))))),
      ":parent:" + (PA + (":sentiment:" + (S + (":user:" + (u + W))))));
    LiteralThen("comments:app:", a + (":parent:" + ("*" + (":sentiment:" + ("*" + (":user:" + (u + (":" + "*"))))))),
      a + (":parent:" + (PA + (":sentiment:" + (S + (":user:" + (u + W)))))));
  }

  /** A write evicts exactly the keys it owns: the author's listings and pages, in the application. */
  lemma WriteEvictsExactlyOwned(a: Uuid, u: Uuid, k: CacheKey)
    ensures EvictedByWrite(a, u, Render(k)) <==> OwnedBy(a, u, k)
  {
    ListingsPrefixSelects(a, u, k);
    PagesPatternSelects(a, u, k);
  }

  /** In particular, the author's comment tree stays cached across the author's writes. */
  lemma WriteKeepsTree(a: Uuid, u: Uuid, a': Uuid, u': Uuid)
    ensures !EvictedByWrite(a, u, CommentTreeKey(a', u'))
  {
    WriteEvictsExactlyOwned(a, u, Tree(a', u'));
  }

  /** The builder's pattern, with its joined literal split at the wildcards. */
  lemma BuilderPatternSplit(a: Uuid, u: Uuid)
    ensures CommentsPatternForUser(a, u) ==
      "comments:app:" + (a + (":parent:" + ("*" + (":sentiment:" + ("*" + (":user:" + (u + "")))))))
  {
    assert ":parent:*:sentiment:*:user:" + u == ":parent:" + ("*" + (":sentiment:" + ("*" + (":user:" + (u + "")))));
  }

  /**
   * The builder's pattern for a user's comment pages has no trailing
   * wildcard, so under full matching it selects no key at all; the write
   * path spells its own pattern with the trailing ":*".
   */
  lemma BuilderPatternSelectsNothing(a: Uuid, u: Uuid, k: CacheKey)
    ensures !Matches(CommentsPatternForUser(a, u), Render(k))
  {
    BuilderPatternSplit(a, u);
    var pattern := CommentsPatternForUser(a, u);
    assert pattern[57] == '*';
    var key := Render(k);
    if GlobMatch(pattern, key) {
      var p1 := a + (":parent:" + ("*" + (":sentiment:" + ("*" + (":user:" + (u + ""))))));
      GlobLiteralPrefix("comments:app:", p1, key);
      assert key == "comments:app:" + key[13..];
      FamilyOfHead("comments:app:", key[13..]);
      FamilyOfRender(k);
      PagesGlobFields(a, u, "", k.app, k.parent, k.sentiment, k.user, k.page, k.size);
    }
  }
}
