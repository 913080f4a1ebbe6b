/** `AnnouncementController`: the static announcement list, who sees which
    announcement, the newest-first ordering, statistics, search, and the
    create / update / delete / publish-toggle operations. Timestamps are
    whole numbers (milliseconds), standing for the ISO strings the source
    parses with `new Date(...)`. */
module AnnouncementController {
  import opened Base
  import opened Text
  import opened Entities
  import opened AuthController

  /** 'all' | 'students' | 'lecturers' | 'admins' */
  datatype Audience = Everyone | Students | Lecturers | Admins

  function AudienceName(a: Audience): string
  {
    match a
    case Everyone => "all"
    case Students => "students"
    case Lecturers => "lecturers"
    case Admins => "admins"
  }

  /** The audience meant by a role. */
  function AudienceOf(r: Role): Audience
  {
    match r
    case Student => Students
    case Lecturer => Lecturers
    case Admin => Admins
  }

  datatype Priority = Low | Medium | High

  /** `type: 'class' | 'system'` */
  datatype Kind = ClassPost | SystemPost

  datatype Announcement = Announcement(
    id: string,
    title: string,
    content: string,
    classId: Option<string>,
    courseName: Option<string>,
    targetAudience: Option<Audience>,
    postedBy: string,
    postedAt: int,
    isPublished: bool,
    priority: Priority,
    kind: Kind)

  /** `Partial<Announcement>` */
  datatype AnnouncementPatch = AnnouncementPatch(
    id: Option<string>,
    title: Option<string>,
    content: Option<string>,
    classId: Option<string>,
    courseName: Option<string>,
    targetAudience: Option<Audience>,
    postedBy: Option<string>,
    postedAt: Option<int>,
    isPublished: Option<bool>,
    priority: Option<Priority>,
    kind: Option<Kind>)

  /** `{ ...announcement, ...updates }` */
  function MergeAnnouncement(a: Announcement, u: AnnouncementPatch): Announcement
  {
    Announcement(
      Pick(a.id, u.id), Pick(a.title, u.title), Pick(a.content, u.content),
      if u.classId.Some? then u.classId else a.classId,
      if u.courseName.Some? then u.courseName else a.courseName,
      if u.targetAudience.Some? then u.targetAudience else a.targetAudience,
      Pick(a.postedBy, u.postedBy), Pick(a.postedAt, u.postedAt),
      Pick(a.isPublished, u.isPublished), Pick(a.priority, u.priority), Pick(a.kind, u.kind))
  }

  function AnnouncementIds(anns: seq<Announcement>): seq<string>
  {
    seq(|anns|, i requires 0 <= i < |anns| => anns[i].id)
  }

  /** Position of the first announcement with this id (`findIndex`, `find`). */
  function AnnouncementIndex(anns: seq<Announcement>, id: string): Option<nat>
  {
    IndexOf(AnnouncementIds(anns), id)
  }

  // ---------------------------------------------------------------------
  // Visibility

  /** The class-announcement branch: it needs a non-empty class id; every
      student sees it, a lecturer only when they posted it (by full name),
      anybody else never. */
  predicate ClassPostVisible(a: Announcement, userRole: string, viewerName: Option<string>)
  {
    a.classId.Some? && a.classId.value != ""
    && (userRole == "student" || (userRole == "lecturer" && viewerName == Some(a.postedBy)))
  }

  /** The filter of `getAnnouncementsForUser` as written: a system
      announcement's audience name is compared with the role name itself. */
  predicate VisibleAsWritten(a: Announcement, userRole: string, viewerName: Option<string>)
  {
    if a.kind == SystemPost then
      a.targetAudience == Some(Everyone)
      || (a.targetAudience.Some? && AudienceName(a.targetAudience.value) == userRole)
    else ClassPostVisible(a, userRole, viewerName)
  }

  /** The filter with the audience of the user's role: a system
      announcement is shown to everyone when it targets 'all', otherwise
      to the role it targets. */
  predicate VisibleTo(a: Announcement, userRole: string, viewerName: Option<string>)
  {
    if a.kind == SystemPost then
      a.targetAudience == Some(Everyone)
      || (ParseRole(userRole).Some? && a.targetAudience == Some(AudienceOf(ParseRole(userRole).value)))
    else ClassPostVisible(a, userRole, viewerName)
  }

  /** As written, no role string lets one user see both a system
      announcement for students and a class announcement: the first needs
      the role 'students', the second the role 'student'. */
  lemma AsWrittenNoRoleSeesBoth(sys: Announcement, cls: Announcement, userRole: string, viewerName: Option<string>)
    requires sys.kind == SystemPost && sys.targetAudience == Some(Students)
    requires cls.kind == ClassPost
    ensures !(VisibleAsWritten(sys, userRole, viewerName) && VisibleAsWritten(cls, userRole, viewerName))
    ensures VisibleAsWritten(sys, userRole, viewerName) <==> userRole == "students"
  {
  }

  /** With the role's own audience, a student sees both. */
  lemma StudentSeesBoth(sys: Announcement, cls: Announcement, viewerName: Option<string>)
    requires sys.kind == SystemPost && sys.targetAudience == Some(Students)
    requires cls.kind == ClassPost && cls.classId.Some? && cls.classId.value != ""
    ensures VisibleTo(sys, "student", viewerName) && VisibleTo(cls, "student", viewerName)
  {
  }

  /** A system announcement is shown to role `r` exactly when it targets
      'all' or the audience of `r`. */
  lemma SystemPostAudience(a: Announcement, r: Role, viewerName: Option<string>)
    requires a.kind == SystemPost
    ensures VisibleTo(a, RoleName(r), viewerName) <==>
            a.targetAudience == Some(Everyone) || a.targetAudience == Some(AudienceOf(r))
  {
    ParseRoleName(r);
  }

  /** A class announcement with a class id: every student sees it, a
      lecturer exactly when the lecturer posted it, an admin never. */
  lemma ClassPostAudience(a: Announcement, viewerName: Option<string>)
    requires a.kind == ClassPost && a.classId.Some? && a.classId.value != ""
    ensures VisibleTo(a, RoleName(Student), viewerName)
    ensures VisibleTo(a, RoleName(Lecturer), viewerName) <==> viewerName == Some(a.postedBy)
    ensures !VisibleTo(a, RoleName(Admin), viewerName)
  {
  }

  // ---------------------------------------------------------------------
  // Newest first

  /** Sorted by `postedAt`, newest first. */
  predicate NewestFirst(s: seq<Announcement>)
  {
    forall i, j :: 0 <= i < j < |s| ==> s[i].postedAt >= s[j].postedAt
  }

  /** An announcement at least as new as everything in a sorted list keeps
      it sorted when put in front. */
  lemma PrependNewest(x: Announcement, s: seq<Announcement>)
    requires NewestFirst(s)
    requires forall y :: y in s ==> x.postedAt >= y.postedAt
    ensures NewestFirst([x] + s)
  {
    var t := [x] + s;
    forall i, j | 0 <= i < j < |t| ensures t[i].postedAt >= t[j].postedAt {
      assert t[j] == s[j - 1];
      if i > 0 {
        assert t[i] == s[i - 1];
      }
    }
  }

  /** The tail of a sorted list is sorted, and its head is at least as new
      as everything in it. */
  lemma SortedTail(s: seq<Announcement>)
    requires NewestFirst(s) && s != []
    ensures NewestFirst(s[1..])
    ensures forall y :: y in s[1..] ==> s[0].postedAt >= y.postedAt
  {
    var tail := s[1..];
    forall i, j | 0 <= i < j < |tail| ensures tail[i].postedAt >= tail[j].postedAt {
      assert tail[i] == s[i + 1] && tail[j] == s[j + 1];
    }
    forall y | y in tail ensures s[0].postedAt >= y.postedAt {
      var k :| 0 <= k < |tail| && tail[k] == y;
      assert s[k + 1] == y;
    }
  }

  /** Inserts `a` in front of the first element that is not newer. */
  function InsertByDate(a: Announcement, s: seq<Announcement>): (r: seq<Announcement>)
    requires NewestFirst(s)
    ensures NewestFirst(r)
    ensures multiset(r) == multiset(s) + multiset{a}
    ensures forall x :: x in r <==> x == a || x in s
  {
    if s == [] then [a]
    else if a.postedAt >= s[0].postedAt then
      SortedTail(s);
      assert s == [s[0]] + s[1..];
      PrependNewest(a, s);
      [a] + s
    else
      SortedTail(s);
      assert s == [s[0]] + s[1..];
      var rest := InsertByDate(a, s[1..]);
      PrependNewest(s[0], rest);
      [s[0]] + rest
  }

  /** `.sort((a, b) => b.postedAt - a.postedAt)`: the same announcements,
      newest first. */
  function SortNewestFirst(s: seq<Announcement>): (r: seq<Announcement>)
    ensures NewestFirst(r)
    ensures multiset(r) == multiset(s)
    ensures forall x :: x in r <==> x in s
    ensures |r| == |s|
  {
    if s == [] then []
    else
      assert s == [s[0]] + s[1..];
      InsertByDate(s[0], SortNewestFirst(s[1..]))
  }

  /** Filtering keeps the order of what remains. */
  lemma {:induction false} FilterKeepsNewestFirst(s: seq<Announcement>, p: Announcement -> bool)
    requires NewestFirst(s)
    ensures NewestFirst(Filter(s, p))
  {
    if s != [] {
      SortedTail(s);
      FilterKeepsNewestFirst(s[1..], p);
      if p(s[0]) {
        PrependNewest(s[0], Filter(s[1..], p));
      }
    }
  }

  /** The counters of `getAnnouncementStats`. */
  datatype AnnouncementStats = AnnouncementStats(
    total: nat, published: nat, highPriority: nat, system: nat, classCount: nat)

  /** A case-insensitive match of the query in the title, the content or
      the author. */
  predicate Matches(a: Announcement, query: string)
  {
    var q := Lower(query);
    Includes(Lower(a.title), q) || Includes(Lower(a.content), q) || Includes(Lower(a.postedBy), q)
  }

  /** `togglePublishStatus` on a list: flips `isPublished` of the first
      announcement with the id. */
  function Toggle(anns: seq<Announcement>, id: string): (r: (bool, seq<Announcement>))
    ensures r.0 <==> id in AnnouncementIds(anns)
    ensures !r.0 ==> r.1 == anns
    ensures r.0 ==>
      var i := AnnouncementIndex(anns, id).value;
      |r.1| == |anns| && anns[i].id == id
      && r.1[i].isPublished == !anns[i].isPublished
      && r.1[i].(isPublished := anns[i].isPublished) == anns[i]
      && forall j :: 0 <= j < |anns| && j != i ==> r.1[j] == anns[j]
  {
    match AnnouncementIndex(anns, id)
    case None => (false, anns)
    case Some(i) =>
      assert AnnouncementIds(anns)[i] == anns[i].id;
      (true, anns[i := anns[i].(isPublished := !anns[i].isPublished)])
  }

  /** Toggling twice restores the list. */
  lemma {:induction false} ToggleTwice(anns: seq<Announcement>, id: string)
    ensures Toggle(Toggle(anns, id).1, id) == Toggle(anns, id).(1 := anns)
  {
    var (ok, once) := Toggle(anns, id);
    if ok {
      var i := AnnouncementIndex(anns, id).value;
      assert AnnouncementIds(once) == AnnouncementIds(anns);
      assert once[i := once[i].(isPublished := !once[i].isPublished)] == anns;
    }
  }

  /** The static `announcements` array. */
  /** `t` holds the elements of `s` that satisfy `v`, each as often as in
      `s`, in any order: then `t` is as long as the `v`-part of `s`. */
  lemma ViewSize<T(!new)>(s: seq<T>, t: seq<T>, v: T -> bool)
    requires forall x :: multiset(t)[x] == if v(x) then multiset(s)[x] else 0
    ensures |t| == |Filter(s, v)|
  {
    var b := Filter(s, v);
    assert multiset(t) == multiset(b) by {
      forall x ensures multiset(t)[x] == multiset(b)[x] {
        if !v(x) {
          assert x !in b;
        }
      }
    }
    assert |t| == |multiset(t)| && |b| == |multiset(b)|;
  }

  /** Under the same condition, counting the elements of `t` with `p` is
      counting the elements of `s` with both `v` and `p`. */
  lemma CountThroughView<T(!new)>(s: seq<T>, t: seq<T>, v: T -> bool, p: T -> bool, w: T -> bool)
    requires forall x :: multiset(t)[x] == if v(x) then multiset(s)[x] else 0
    requires forall x :: w(x) == (v(x) && p(x))
    ensures |Filter(t, p)| == |Filter(s, w)|
  {
    var a := Filter(t, p);
    var b := Filter(s, w);
    assert multiset(a) == multiset(b) by {
      forall x ensures multiset(a)[x] == multiset(b)[x] {
        if !p(x) {
          assert x !in a && x !in b;
        } else if !v(x) {
          assert x !in t;
          assert x !in a && x !in b;
        }
      }
    }
    assert |a| == |multiset(a)| && |b| == |multiset(b)|;
  }

  predicate IsPublished(a: Announcement) { a.isPublished }

  predicate IsHighPriority(a: Announcement) { a.priority == High }

  predicate IsSystemPost(a: Announcement) { a.kind == SystemPost }

  predicate IsClassPost(a: Announcement) { a.kind == ClassPost }

  /** How many announcements of `anns` the user sees that satisfy `p`. */
  function VisibleCount(anns: seq<Announcement>, userRole: string, viewerName: Option<string>,
                        p: Announcement -> bool): nat
  {
    |Filter(anns, (a: Announcement) => VisibleTo(a, userRole, viewerName) && p(a))|
  }

  /** Counting in any list holding exactly the visible announcements. */
  lemma CountVisible(anns: seq<Announcement>, list: seq<Announcement>, userRole: string,
                     viewerName: Option<string>, p: Announcement -> bool)
    requires forall a ::
               multiset(list)[a] == if VisibleTo(a, userRole, viewerName) then multiset(anns)[a] else 0
    ensures |Filter(list, p)| == VisibleCount(anns, userRole, viewerName, p)
  {
    CountThroughView(anns, list, (a: Announcement) => VisibleTo(a, userRole, viewerName), p,
      (a: Announcement) => VisibleTo(a, userRole, viewerName) && p(a));
  }

  /** The figures of the statistics, for a list holding exactly the
      visible announcements. */
  lemma CountAllVisible(anns: seq<Announcement>, list: seq<Announcement>, userRole: string,
                        viewerName: Option<string>)
    requires forall a ::
               multiset(list)[a] == if VisibleTo(a, userRole, viewerName) then multiset(anns)[a] else 0
    ensures |list| == |Filter(anns, (a: Announcement) => VisibleTo(a, userRole, viewerName))|
    ensures |Filter(list, IsPublished)| == VisibleCount(anns, userRole, viewerName, IsPublished)
    ensures |Filter(list, IsHighPriority)| == VisibleCount(anns, userRole, viewerName, IsHighPriority)
    ensures |Filter(list, IsSystemPost)| == VisibleCount(anns, userRole, viewerName, IsSystemPost)
    ensures |Filter(list, IsClassPost)| == VisibleCount(anns, userRole, viewerName, IsClassPost)
    ensures |Filter(list, IsSystemPost)| + |Filter(list, IsClassPost)| == |list|
  {
    ViewSize(anns, list, (a: Announcement) => VisibleTo(a, userRole, viewerName));
    CountVisible(anns, list, userRole, viewerName, IsPublished);
    CountVisible(anns, list, userRole, viewerName, IsHighPriority);
    CountVisible(anns, list, userRole, viewerName, IsSystemPost);
    CountVisible(anns, list, userRole, viewerName, IsClassPost);
    FilterPartition(list, IsSystemPost, IsClassPost);
  }

  class AnnouncementBoard {
    var announcements: seq<Announcement>

    constructor (announcements: seq<Announcement>)
      ensures this.announcements == announcements
    {
      this.announcements := announcements;
    }

    /** `getAnnouncementsForUser` once the current user's full name is
        known: the visible announcements, newest first. */
    function ForUser(userRole: string, viewerName: Option<string>): (r: seq<Announcement>)
      reads this
      ensures forall a :: a in r <==> a in announcements && VisibleTo(a, userRole, viewerName)
      ensures forall a :: multiset(r)[a] == if VisibleTo(a, userRole, viewerName) then multiset(announcements)[a] else 0
      ensures NewestFirst(r)
    {
      var visible := Filter(announcements, (a: Announcement) => VisibleTo(a, userRole, viewerName));
      var r := SortNewestFirst(visible);
      assert forall a :: a in r <==> a in visible by {
        forall a ensures a in r <==> a in visible {
          assert a in r <==> a in multiset(r);
          assert a in visible <==> a in multiset(visible);
        }
      }
      r
    }

    /** `getAnnouncementsForUser` with the filter as written. */
    function ForUserAsWritten(userRole: string, viewerName: Option<string>): (r: seq<Announcement>)
      reads this
      ensures forall a :: a in r <==> a in announcements && VisibleAsWritten(a, userRole, viewerName)
      ensures forall a :: multiset(r)[a] == if VisibleAsWritten(a, userRole, viewerName) then multiset(announcements)[a] else 0
      ensures NewestFirst(r)
    {
      var visible := Filter(announcements, (a: Announcement) => VisibleAsWritten(a, userRole, viewerName));
      var r := SortNewestFirst(visible);
      assert forall a :: a in r <==> a in visible by {
        forall a ensures a in r <==> a in visible {
          assert a in r <==> a in multiset(r);
          assert a in visible <==> a in multiset(visible);
        }
      }
      r
    }

    /** A system announcement for students in the store is missing from a
        student's list as written and present in it with the role's own
        audience. */
    lemma StudentSystemPostHiddenAsWritten(a: Announcement, viewerName: Option<string>)
      requires a in announcements && a.kind == SystemPost && a.targetAudience == Some(Students)
      ensures a !in ForUserAsWritten("student", viewerName)
      ensures a in ForUser("student", viewerName)
    {
      assert !VisibleAsWritten(a, "student", viewerName);
      assert VisibleTo(a, "student", viewerName);
    }

    /** `getAnnouncementsByLecturer`: the class announcements posted under
        this name, newest first. */
    function ByLecturer(lecturerId: string): (r: seq<Announcement>)
      reads this
      ensures forall a :: a in r <==> a in announcements && a.kind == ClassPost && a.postedBy == lecturerId
      ensures forall a: Announcement :: a.kind == ClassPost && a.postedBy == lecturerId ==>
                multiset(r)[a] == multiset(announcements)[a]
      ensures multiset(r) <= multiset(announcements)
      ensures NewestFirst(r)
    {
      SortNewestFirst(Filter(announcements, (a: Announcement) => a.kind == ClassPost && a.postedBy == lecturerId))
    }

    /** `getSystemAnnouncements`: every system announcement, newest first. */
    function System(): (r: seq<Announcement>)
      reads this
      ensures forall a :: a in r <==> a in announcements && a.kind == SystemPost
      ensures forall a: Announcement :: a.kind == SystemPost ==> multiset(r)[a] == multiset(announcements)[a]
      ensures multiset(r) <= multiset(announcements)
      ensures NewestFirst(r)
    {
      SortNewestFirst(Filter(announcements, (a: Announcement) => a.kind == SystemPost))
    }

    /** `getAnnouncementStats`: each figure counts the announcements of the
        store that the user sees and that have the property, however the
        visible list is ordered. */
    function Stats(userRole: string, viewerName: Option<string>): (r: AnnouncementStats)
      reads this
      ensures r.total == |ForUser(userRole, viewerName)|
      ensures r.total == |Filter(announcements, (a: Announcement) => VisibleTo(a, userRole, viewerName))|
      ensures r.published == VisibleCount(announcements, userRole, viewerName, IsPublished)
      ensures r.highPriority == VisibleCount(announcements, userRole, viewerName, IsHighPriority)
      ensures r.system == VisibleCount(announcements, userRole, viewerName, IsSystemPost)
      ensures r.classCount == VisibleCount(announcements, userRole, viewerName, IsClassPost)
      ensures r.system + r.classCount == r.total
      ensures r.published <= r.total && r.highPriority <= r.total
    {
      var list := ForUser(userRole, viewerName);
      CountAllVisible(announcements, list, userRole, viewerName);
      AnnouncementStats(
        |list|,
        |Filter(list, IsPublished)|,
        |Filter(list, IsHighPriority)|,
        |Filter(list, IsSystemPost)|,
        |Filter(list, IsClassPost)|)
    }

    /** `searchAnnouncements`: a blank query gives the user's whole list,
        any other query the matching part of it, still newest first. */
    function Search(query: string, userRole: string, viewerName: Option<string>): (r: seq<Announcement>)
      reads this
      ensures (forall i :: 0 <= i < |query| ==> IsWhiteSpace(query[i])) ==> r == ForUser(userRole, viewerName)
      ensures !(forall i :: 0 <= i < |query| ==> IsWhiteSpace(query[i])) ==>
        forall a :: a in r <==> a in ForUser(userRole, viewerName) && Matches(a, query)
      ensures !(forall i :: 0 <= i < |query| ==> IsWhiteSpace(query[i])) ==>
        forall a :: Matches(a, query) ==> multiset(r)[a] == multiset(ForUser(userRole, viewerName))[a]
      ensures multiset(r) <= multiset(ForUser(userRole, viewerName))
      ensures NewestFirst(r)
    {
      var list := ForUser(userRole, viewerName);
      TrimEmptyIffBlank(query);
      if Trim(query) == [] then list
      else
        var p := (a: Announcement) => Matches(a, query);
        FilterKeepsNewestFirst(list, p);
        Filter(list, p)
    }

    /** `getAnnouncementsForUser`: reads the current user (restoring it from
        storage if need be) for the lecturer check. */
    method GetAnnouncementsForUser(auth: AuthSession, userRole: string) returns (r: seq<Announcement>)
      modifies auth
      ensures auth.currentUser == old(auth.Restored()) && auth.stored == old(auth.stored)
      ensures old(auth.Restored()).None? ==> r == ForUser(userRole, None)
      ensures old(auth.Restored()).Some? ==> r == ForUser(userRole, Some(old(auth.Restored()).value.fullName))
    {
      var user := auth.GetCurrentUser();
      r := ForUser(userRole, if user.Some? then Some(user.value.fullName) else None);
    }

    /** `createAnnouncement`: the given fields with a fresh id and the
        current time, placed first. */
    method Create(draft: Announcement, id: string, now: int) returns (r: Announcement)
      modifies this
      ensures r == draft.(id := id, postedAt := now)
      ensures announcements == [r] + old(announcements)
      ensures |announcements| == |old(announcements)| + 1 && announcements[0] == r
    {
      r := draft.(id := id, postedAt := now);
      announcements := [r] + announcements;
    }

    /** `updateAnnouncement`: merges into the first announcement with the
        id, or returns null and changes nothing. */
    method Update(id: string, updates: AnnouncementPatch) returns (r: Option<Announcement>)
      modifies this
      ensures r.None? <==> id !in AnnouncementIds(old(announcements))
      ensures r.None? ==> announcements == old(announcements)
      ensures r.Some? ==>
        var i := AnnouncementIndex(old(announcements), id).value;
        old(announcements)[i].id == id
        && r.value == MergeAnnouncement(old(announcements)[i], updates)
        && announcements == old(announcements)[i := r.value]
    {
      var index := AnnouncementIndex(announcements, id);
      if index.None? {
        return None;
      }
      var i := index.value;
      assert AnnouncementIds(announcements)[i] == announcements[i].id;
      announcements := announcements[i := MergeAnnouncement(announcements[i], updates)];
      r := Some(announcements[i]);
    }

    /** `deleteAnnouncement`: removes the first announcement with the id. */
    method Delete(id: string) returns (ok: bool)
      modifies this
      ensures ok <==> id in AnnouncementIds(old(announcements))
      ensures !ok ==> announcements == old(announcements)
      ensures ok ==>
        var i := AnnouncementIndex(old(announcements), id).value;
        old(announcements)[i].id == id
        && announcements == old(announcements)[..i] + old(announcements)[i + 1..]
        && multiset(announcements) + multiset{old(announcements)[i]} == multiset(old(announcements))
    {
      var index := AnnouncementIndex(announcements, id);
      if index.None? {
        return false;
      }
      var i := index.value;
      assert AnnouncementIds(announcements)[i] == announcements[i].id;
      assert announcements == announcements[..i] + [announcements[i]] + announcements[i + 1..];
      announcements := announcements[..i] + announcements[i + 1..];
      ok := true;
    }

    /** `togglePublishStatus` */
    method TogglePublishStatus(id: string) returns (ok: bool)
      modifies this
      ensures (ok, announcements) == Toggle(old(announcements), id)
    {
      var index := AnnouncementIndex(announcements, id);
      if index.None? {
        return false;
      }
      var i := index.value;
      announcements := announcements[i := announcements[i].(isPublished := !announcements[i].isPublished)];
      ok := true;
    }
  }
}
