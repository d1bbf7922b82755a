/**
 * The cache key scheme: every key and pattern builder of the system, a
 * description of every key as a value (`CacheKey`), and the facts that make
 * the scheme sound: distinct families never share a key, distinct queries of
 * the comment and rating families never share a key, and each pattern
 * builder is a prefix of the keys it is meant to cover.
 *
 * Every builder joins its fields with the delimiter ':'. The literal field
 * names are written here already joined with their delimiters, and the
 * concatenation is grouped from the right; string concatenation is
 * associative, so the texts are the ones the builders produce.
 */
module CacheKeys {
  import opened Wrappers
  import opened Text

  function UserCommentsKey(applicationId: string, userId: string, sentiment: Option<int>, page: int, size: int): (r: string)
    ensures StartsWith(r, UserCommentsPattern(userId))
  {
    "comments:user:" + (userId + (":app:" + (applicationId + (":sentiment:" + (OptIntText(sentiment) +
      (":page:" + (IntText(page) + (":" + IntText(size)))))))))
  }

  function UserCommentsPattern(userId: string): string {
    "comments:user:" + userId
  }

  function CommentsKey(applicationId: string, parentId: string, sentiment: Option<int>, userId: string, page: int, size: int): string {
    "comments:app:" + (applicationId + (":parent:" + (parentId + (":sentiment:" + (OptIntText(sentiment) +
      (":user:" + (userId + (":page:" + (IntText(page) + (":" + IntText(size)))))))))))
  }

  function CommentsPatternForUser(applicationId: string, userId: string): string {
    "comments:app:" + (applicationId + (":parent:*:sentiment:*:user:" + userId))
  }

  function CommentTreeKey(applicationId: string, userId: string): (r: string)
    ensures StartsWith(r, CommentTreePattern(applicationId))
  {
    "comments:tree:" + (applicationId + (":user:" + userId))
  }

  function CommentTreePattern(applicationId: string): string {
    "comments:tree:" + applicationId
  }

  function RatingAvgKey(applicationId: string): string {
    "rating:avg:" + applicationId
  }

  function RatingStatsKey(applicationId: string): string {
    "rating:stats:" + applicationId
  }

  function RatingsPageKey(applicationId: string, page: int, size: int): string {
    "rating:page:" + (applicationId + (":" + (IntText(page) + (":" + IntText(size)))))
  }

  function RatingsPattern(applicationId: string): string {
    "rating:*:" + applicationId
  }

  function ApplicationKey(applicationId: string): string {
    "application:" + applicationId
  }

  function ApplicationsPageKey(filterKey: string, filterValue: string, page: int, size: int): string {
    "applications:" + (filterKey + (":" + (filterValue + (":" + (IntText(page) + (":" + IntText(size)))))))
  }

  /** The text a UUID reference that may be null is written as in a key. */
  function UuidOrNull(id: Option<Uuid>): (r: string)
    ensures id.None? ==> r == "null"
    ensures id.Some? ==> r == id.value
  {
    if id.Some? then id.value else "null"
  }

  /** The text written for a parent reference tells a null reference and every UUID apart. */
  lemma UuidOrNullInjective(x: Option<Uuid>, y: Option<Uuid>)
    ensures UuidOrNull(x) == UuidOrNull(y) <==> x == y
  {
    if x.Some? && y.None? {
      assert |UuidOrNull(x)| == 36 != |UuidOrNull(y)|;
    } else if x.None? && y.Some? {
      assert |UuidOrNull(y)| == 36 != |UuidOrNull(x)|;
    }
  }

  /** Every key the system builds, as the arguments its builder is called with. */
  datatype CacheKey =
    | UserComments(app: Uuid, user: Uuid, sentiment: Option<int>, page: Int32, size: Int32)
    | Comments(app: Uuid, parent: Option<Uuid>, sentiment: Option<int>, user: Uuid, page: Int32, size: Int32)
    | Tree(app: Uuid, user: Uuid)
    | RatingAvg(app: Uuid)
    | RatingStats(app: Uuid)
    | RatingsPage(app: Uuid, page: Int32, size: Int32)
    | Application(app: Uuid)
    | ApplicationsPage(filterKey: string, filterValue: string, page: Int32, size: Int32)

  /** The literal text every key of a family starts with. */
  function Family(k: CacheKey): string {
    match k
    case UserComments(_, _, _, _, _) => "comments:user:"
    case Comments(_, _, _, _, _, _) => "comments:app:"
    case Tree(_, _) => "comments:tree:"
    case RatingAvg(_) => "rating:avg:"
    case RatingStats(_) => "rating:stats:"
    case RatingsPage(_, _, _) => "rating:page:"
    case Application(_) => "application:"
    case ApplicationsPage(_, _, _, _) => "applications:"
  }

  /** The key text the builder produces for `k`. */
  function Render(k: CacheKey): string {
    match k
    case UserComments(a, u, s, p, z) => UserCommentsKey(a, u, s, p, z)
    case Comments(a, pa, s, u, p, z) => CommentsKey(a, UuidOrNull(pa), s, u, p, z)
    case Tree(a, u) => CommentTreeKey(a, u)
    case RatingAvg(a) => RatingAvgKey(a)
    case RatingStats(a) => RatingStatsKey(a)
    case RatingsPage(a, p, z) => RatingsPageKey(a, p, z)
    case Application(a) => ApplicationKey(a)
    case ApplicationsPage(fk, fv, p, z) => ApplicationsPageKey(fk, fv, p, z)
  }

  /** The family a key text belongs to, read off its literal head. */
  function FamilyOf(key: string): (f: Option<string>)
    ensures f.Some? ==> StartsWith(key, f.value)
  {
    if StartsWith(key, "comments:user:") then Some("comments:user:")
    else if StartsWith(key, "comments:app:") then Some("comments:app:")
    else if StartsWith(key, "comments:tree:") then Some("comments:tree:")
    else if StartsWith(key, "rating:avg:") then Some("rating:avg:")
    else if StartsWith(key, "rating:stats:") then Some("rating:stats:")
    else if StartsWith(key, "rating:page:") then Some("rating:page:")
    else if StartsWith(key, "application:") then Some("application:")
    else if StartsWith(key, "applications:") then Some("applications:")
    else None
  }

  /** A text that differs from `head` at a position inside both does not start with it. */
  lemma DiffersAt(r: string, head: string, i: nat)
    requires i < |head| && i < |r| && r[i] != head[i]
    ensures !StartsWith(r, head)
  {
    if |head| <= |r| {
      assert r[..|head|][i] == r[i];
    }
  }

  /** A family head followed by anything reads back as that family. */
  lemma FamilyOfHead(head: string, rest: string)
    requires head == "comments:user:" || head == "comments:app:" || head == "comments:tree:" ||
             head == "rating:avg:" || head == "rating:stats:" || head == "rating:page:" ||
             head == "application:" || head == "applications:"
    ensures FamilyOf(head + rest) == Some(head)
  {
    var r := head + rest;
    assert r[..|head|] == head;
    // Each head differs from every head tested before it at one of these positions.
    if head != "comments:user:" {
      if head[0] == 'c' {
        DiffersAt(r, "comments:user:", 9);
        if head != "comments:app:" {
          DiffersAt(r, "comments:app:", 9);
        }
      } else {
        DiffersAt(r, "comments:user:", 0);
        DiffersAt(r, "comments:app:", 0);
        DiffersAt(r, "comments:tree:", 0);
        if head[0] == 'r' {
          if head != "rating:avg:" {
            DiffersAt(r, "rating:avg:", 7);
            if head != "rating:stats:" {
              DiffersAt(r, "rating:stats:", 7);
            }
          }
        } else {
          DiffersAt(r, "rating:avg:", 0);
          DiffersAt(r, "rating:stats:", 0);
          DiffersAt(r, "rating:page:", 0);
          if head != "application:" {
            DiffersAt(r, "application:", 11);
          }
        }
      }
    }
  }

  /** Every key reads back as the family it was built for. */
  lemma FamilyOfRender(k: CacheKey)
    ensures FamilyOf(Render(k)) == Some(Family(k))
  {
    match k
    case UserComments(a, u, s, p, z) =>
      FamilyOfHead("comments:user:", Render(k)[14..]);
    case Comments(a, pa, s, u, p, z) =>
      FamilyOfHead("comments:app:", Render(k)[13..]);
    case Tree(a, u) =>
      FamilyOfHead("comments:tree:", Render(k)[14..]);
    case RatingAvg(a) =>
      FamilyOfHead("rating:avg:", a);
    case RatingStats(a) =>
      FamilyOfHead("rating:stats:", a);
    case RatingsPage(a, p, z) =>
      FamilyOfHead("rating:page:", Render(k)[12..]);
    case Application(a) =>
      FamilyOfHead("application:", a);
    case ApplicationsPage(fk, fv, p, z) =>
      FamilyOfHead("applications:", Render(k)[13..]);
  }

  /** Keys of different families never coincide. */
  lemma FamiliesDisjoint(k1: CacheKey, k2: CacheKey)
    requires Family(k1) != Family(k2)
    ensures Render(k1) != Render(k2)
  {
    FamilyOfRender(k1);
    FamilyOfRender(k2);
  }

  /** `<page>:<size>` determines both ints. */
  lemma IntPairInjective(p1: int, z1: int, p2: int, z2: int)
    requires IntText(p1) + (":" + IntText(z1)) == IntText(p2) + (":" + IntText(z2))
    ensures p1 == p2 && z1 == z2
  {
    IntTextIsColonFree(p1);
    IntTextIsColonFree(p2);
    SplitAtColon(IntText(p1), ":" + IntText(z1), IntText(p2), ":" + IntText(z2));
    assert IntText(z1) == (":" + IntText(z1))[1..];
    assert IntText(z2) == (":" + IntText(z2))[1..];
    IntTextInjective(p1, p2);
    IntTextInjective(z1, z2);
  }

  /** `<sentiment>:page:<page>:<size>` determines all three fields. */
  lemma SentimentPageInjective(s1: Option<int>, p1: int, z1: int, s2: Option<int>, p2: int, z2: int)
    requires OptIntText(s1) + (":page:" + (IntText(p1) + (":" + IntText(z1)))) ==
             OptIntText(s2) + (":page:" + (IntText(p2) + (":" + IntText(z2))))
    ensures s1 == s2 && p1 == p2 && z1 == z2
  {
    var t1, t2 := ":page:" + (IntText(p1) + (":" + IntText(z1))), ":page:" + (IntText(p2) + (":" + IntText(z2)));
    OptIntTextIsColonFree(s1);
    OptIntTextIsColonFree(s2);
    SplitAtColon(OptIntText(s1), t1, OptIntText(s2), t2);
    OptIntTextInjective(s1, s2);
    assert t1[6..] == t2[6..];
    IntPairInjective(p1, z1, p2, z2);
  }

  /** Distinct requests for one user's comments never share a key. */
  lemma UserCommentsKeyInjective(a1: Uuid, u1: Uuid, s1: Option<int>, p1: int, z1: int,
                                 a2: Uuid, u2: Uuid, s2: Option<int>, p2: int, z2: int)
    requires UserCommentsKey(a1, u1, s1, p1, z1) == UserCommentsKey(a2, u2, s2, p2, z2)
    ensures a1 == a2 && u1 == u2 && s1 == s2 && p1 == p2 && z1 == z2
  {
    var r := UserCommentsKey(a1, u1, s1, p1, z1)[14..];
    assert r[..36] == u1 && r[..36] == u2;
    var q := r[36..][5..];
    assert q[..36] == a1 && q[..36] == a2;
    var t := q[36..][11..];
    assert t == OptIntText(s1) + (":page:" + (IntText(p1) + (":" + IntText(z1))));
    assert t == OptIntText(s2) + (":page:" + (IntText(p2) + (":" + IntText(z2))));
    SentimentPageInjective(s1, p1, z1, s2, p2, z2);
  }

  /** `<sentiment>:user:<user>:page:<page>:<size>` determines all four fields. */
  lemma CommentsTailInjective(s1: Option<int>, u1: Uuid, p1: int, z1: int, s2: Option<int>, u2: Uuid, p2: int, z2: int)
    requires OptIntText(s1) + (":user:" + (u1 + (":page:" + (IntText(p1) + (":" + IntText(z1)))))) ==
             OptIntText(s2) + (":user:" + (u2 + (":page:" + (IntText(p2) + (":" + IntText(z2))))))
    ensures s1 == s2 && u1 == u2 && p1 == p2 && z1 == z2
  {
    var t1 := ":user:" + (u1 + (":page:" + (IntText(p1) + (":" + IntText(z1)))));
    var t2 := ":user:" + (u2 + (":page:" + (IntText(p2) + (":" + IntText(z2)))));
    OptIntTextIsColonFree(s1);
    OptIntTextIsColonFree(s2);
    SplitAtColon(OptIntText(s1), t1, OptIntText(s2), t2);
    OptIntTextInjective(s1, s2);
    assert t1[6..][..36] == u1 && t2[6..][..36] == u2;
    assert t1[6..][36..][6..] == IntText(p1) + (":" + IntText(z1));
    assert t2[6..][36..][6..] == IntText(p2) + (":" + IntText(z2));
    IntPairInjective(p1, z1, p2, z2);
  }

  lemma UuidOrNullIsColonFree(id: Option<Uuid>)
    ensures ColonFree(UuidOrNull(id))
  {
    if id.Some? {
      UuidIsColonFree(id.value);
    } else {
      var s := "null";
      assert forall i :: 0 <= i < |s| ==> s[i] in {'n', 'u', 'l'};
    }
  }

  /** `<parent>:sentiment:<sentiment>:user:<user>:page:<page>:<size>` determines all five fields. */
  lemma ParentTailInjective(pa1: Option<Uuid>, s1: Option<int>, u1: Uuid, p1: int, z1: int,
                            pa2: Option<Uuid>, s2: Option<int>, u2: Uuid, p2: int, z2: int)
    requires UuidOrNull(pa1) + (":sentiment:" + (OptIntText(s1) + (":user:" + (u1 + (":page:" + (IntText(p1) + (":" + IntText(z1)))))))) ==
             UuidOrNull(pa2) + (":sentiment:" + (OptIntText(s2) + (":user:" + (u2 + (":page:" + (IntText(p2) + (":" + IntText(z2))))))))
    ensures pa1 == pa2 && s1 == s2 && u1 == u2 && p1 == p2 && z1 == z2
  {
    var t1 := ":sentiment:" + (OptIntText(s1) + (":user:" + (u1 + (":page:" + (IntText(p1) + (":" + IntText(z1)))))));
    var t2 := ":sentiment:" + (OptIntText(s2) + (":user:" + (u2 + (":page:" + (IntText(p2) + (":" + IntText(z2)))))));
    UuidOrNullIsColonFree(pa1);
    UuidOrNullIsColonFree(pa2);
    assert t1[0] == ':' && t2[0] == ':';
    SplitAtColon(UuidOrNull(pa1), t1, UuidOrNull(pa2), t2);
    assert t1[11..] == t2[11..];
    CommentsTailInjective(s1, u1, p1, z1, s2, u2, p2, z2);
  }

  /** Distinct requests for a comment page never share a key. */
  lemma CommentsKeyInjective(a1: Uuid, pa1: Option<Uuid>, s1: Option<int>, u1: Uuid, p1: int, z1: int,
                             a2: Uuid, pa2: Option<Uuid>, s2: Option<int>, u2: Uuid, p2: int, z2: int)
    requires CommentsKey(a1, UuidOrNull(pa1), s1, u1, p1, z1) == CommentsKey(a2, UuidOrNull(pa2), s2, u2, p2, z2)
    ensures a1 == a2 && pa1 == pa2 && s1 == s2 && u1 == u2 && p1 == p2 && z1 == z2
  {
    var r := CommentsKey(a1, UuidOrNull(pa1), s1, u1, p1, z1)[13..];
    assert r[..36] == a1 && r[..36] == a2;
    var q := r[36..][8..];
    assert q == UuidOrNull(pa1) + (":sentiment:" + (OptIntText(s1) + (":user:" + (u1 + (":page:" + (IntText(p1) + (":" + IntText(z1))))))));
    assert q == UuidOrNull(pa2) + (":sentiment:" + (OptIntText(s2) + (":user:" + (u2 + (":page:" + (IntText(p2) + (":" + IntText(z2))))))));
    ParentTailInjective(pa1, s1, u1, p1, z1, pa2, s2, u2, p2, z2);
  }

  /**
   * Distinct queries never share a cache entry: outside the application
   * listing (whose filter texts are free-form), the key text determines
   * the query it was built for.
   */
  lemma RenderInjective(k1: CacheKey, k2: CacheKey)
    requires !k1.ApplicationsPage? && !k2.ApplicationsPage?
    requires Render(k1) == Render(k2)
    ensures k1 == k2
  {
    if Family(k1) != Family(k2) {
      FamiliesDisjoint(k1, k2);
    } else {
      match k1
      case UserComments(a, u, s, p, z) =>
        UserCommentsKeyInjective(a, u, s, p, z, k2.app, k2.user, k2.sentiment, k2.page, k2.size);
      case Comments(a, pa, s, u, p, z) =>
        CommentsKeyInjective(a, pa, s, u, p, z, k2.app, k2.parent, k2.sentiment, k2.user, k2.page, k2.size);
      case Tree(a, u) =>
        var r := Render(k1)[14..];
        assert r[..36] == a && r[..36] == k2.app;
        assert r[36..][6..] == u && r[36..][6..] == k2.user;
      case RatingAvg(a) =>
        assert Render(k1)[11..] == a;
      case RatingStats(a) =>
        assert Render(k1)[13..] == a;
      case RatingsPage(a, p, z) =>
        var r := Render(k1)[12..];
        assert r[..36] == a && r[..36] == k2.app;
        assert r[36..][1..] == IntText(p) + (":" + IntText(z));
        assert r[36..][1..] == IntText(k2.page) + (":" + IntText(k2.size));
        IntPairInjective(p, z, k2.page, k2.size);
      case Application(a) =>
        assert Render(k1)[12..] == a;
    }
  }
}
