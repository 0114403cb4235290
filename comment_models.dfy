/**
 * The discussion models: the anonymity projection of a post's author, clearing the
 * endorsements of a thread's comments, the write-once sort key of a comment, and the
 * dictionaries of users and subscriptions.
 *
 * Database queries are replaced by filters over the documents of a `Store`.
 */
module CommentModels {
  import opened Wrappers
  import opened Text

  /** An entry of a user's `read_states`: the course and the last read time of each thread. */
  datatype ReadState = ReadState(courseId: string, lastReadTimes: map<string, string>)

  /**
   * A user document; `external_id` is its primary key, which `pk` and `id` also name.
   * `comments` and `threads` are the referenced documents, given by their ids.
   */
  datatype User = User(externalId: string, username: string, defaultSortKey: string, courseId: Option<string>,
                       comments: seq<string>, threads: seq<string>, readStates: seq<ReadState>)

  /** The Python values the modelled members hand back. */
  datatype Value =
    | NoneValue
    | Str(s: string)
    | Count(n: int)
    | Ids(ids: seq<string>)
    | UserValue(user: User)
    | Refs(refs: seq<string>)
    | ReadStates(states: seq<ReadState>)

  datatype Exception = AttributeError(name: string)

  /**
   * `getattr(user, name)` for the stored fields of a user and the names of its primary key;
   * None where Python raises AttributeError.
   */
  function Attribute(u: User, name: string): (r: Option<Value>)
    ensures name == "username" ==> r == Some(Str(u.username))
    ensures name in {"external_id", "id", "pk"} ==> r == Some(Str(u.externalId))
    ensures name == "default_sort_key" ==> r == Some(Str(u.defaultSortKey))
    ensures name == "comments" ==> r == Some(Refs(u.comments))
    ensures name == "threads" ==> r == Some(Refs(u.threads))
    ensures name == "read_states" ==> r == Some(ReadStates(u.readStates))
    ensures name == "course_id" ==> (r.Some? <==> u.courseId.Some?)
    ensures name == "course_id" && u.courseId.Some? ==> r == Some(Str(u.courseId.value))
    ensures r.None? <==> name !in {"username", "external_id", "id", "pk", "default_sort_key",
                                   "comments", "threads", "read_states"} && (name != "course_id" || u.courseId.None?)
  {
    if name == "username" then Some(Str(u.username))
    else if name == "external_id" || name == "id" || name == "pk" then Some(Str(u.externalId))
    else if name == "default_sort_key" then Some(Str(u.defaultSortKey))
    else if name == "comments" then Some(Refs(u.comments))
    else if name == "threads" then Some(Refs(u.threads))
    else if name == "read_states" then Some(ReadStates(u.readStates))
    else if name == "course_id" && u.courseId.Some? then Some(Str(u.courseId.value))
    else None
  }

  /** Python truthiness of an optional attribute name: None and "" are false. */
  predicate Truthy(attr: Option<string>)
  {
    attr.Some? && attr.value != ""
  }

  /**
   * `Content.author_with_anonymity(attr, attr_when_anonymous)` for a thread or comment with
   * the given anonymity flags and author (None when the post has none): an anonymous post
   * yields None (no attribute asked for) or `attrWhenAnonymous`; otherwise the author, or
   * the author's attribute, and `getattr` on a missing author raises AttributeError.
   */
  function AuthorWithAnonymity(anonymous: bool, anonymousToPeers: bool, author: Option<User>,
                               attr: Option<string>, attrWhenAnonymous: Value): (r: Result<Value, Exception>)
    ensures (anonymous || anonymousToPeers) && !Truthy(attr) ==> r == Success(NoneValue)
    ensures (anonymous || anonymousToPeers) && Truthy(attr) ==> r == Success(attrWhenAnonymous)
    ensures !(anonymous || anonymousToPeers) && !Truthy(attr) ==>
              r == Success(if author.Some? then UserValue(author.value) else NoneValue)
    ensures !(anonymous || anonymousToPeers) && Truthy(attr) && author.None? ==> r == Failure(AttributeError(attr.value))
    ensures !(anonymous || anonymousToPeers) && Truthy(attr) && author.Some? ==>
              match Attribute(author.value, attr.value)
              case Some(v) => r == Success(v)
              case None => r == Failure(AttributeError(attr.value))
  {
    if !Truthy(attr) then
      if anonymous || anonymousToPeers then Success(NoneValue)
      else if author.Some? then Success(UserValue(author.value))
      else Success(NoneValue)
    else
      if anonymous || anonymousToPeers then Success(attrWhenAnonymous)
      else if author.None? then Failure(AttributeError(attr.value))
      else match Attribute(author.value, attr.value)
        case Some(v) => Success(v)
        case None => Failure(AttributeError(attr.value))
  }

  /** An anonymous post reveals nothing about its author: the answer is the same for every author, or none. */
  lemma AnonymityHidesAuthor(anonymous: bool, anonymousToPeers: bool, a: Option<User>, b: Option<User>,
                             attr: Option<string>, attrWhenAnonymous: Value)
    requires anonymous || anonymousToPeers
    ensures AuthorWithAnonymity(anonymous, anonymousToPeers, a, attr, attrWhenAnonymous)
         == AuthorWithAnonymity(anonymous, anonymousToPeers, b, attr, attrWhenAnonymous)
    ensures a.Some? ==>
              AuthorWithAnonymity(anonymous, anonymousToPeers, a, attr, attrWhenAnonymous) != Success(UserValue(a.value))
              || attrWhenAnonymous == UserValue(a.value)
  {
  }

  /** The hierarchical sort key of a comment: its ancestors' ids and its own, joined by "-". */
  function SortKey(parentIds: seq<string>, id: string): string
  {
    Join("-", parentIds + [id])
  }

  /** A reply's sort key extends its parent's key: the key of the parent, "-", the reply's id. */
  lemma SortKeyOfReply(ancestorIds: seq<string>, parentId: string, id: string)
    ensures SortKey(ancestorIds + [parentId], id) == SortKey(ancestorIds, parentId) + "-" + id
  {
    JoinSnoc("-", ancestorIds + [parentId], id);
  }

  class Comment {
    const id: string
    var parentIds: seq<string>
    var body: string
    var courseId: string
    var endorsed: bool
    var endorsement: Option<map<string, string>>
    var anonymous: bool
    var anonymousToPeers: bool
    var sk: Option<string>

    /** A new comment with the field defaults: not endorsed, an empty endorsement, not anonymous, no sort key. */
    constructor (id: string, parentIds: seq<string>, body: string, courseId: string)
      ensures this.id == id && this.parentIds == parentIds && this.body == body && this.courseId == courseId
      ensures !endorsed && endorsement == Some(map[]) && !anonymous && !anonymousToPeers && sk.None?
    {
      this.id := id;
      this.parentIds := parentIds;
      this.body := body;
      this.courseId := courseId;
      endorsed := false;
      endorsement := Some(map[]);
      anonymous := false;
      anonymousToPeers := false;
      sk := None;
    }

    /**
     * `Comment.set_sk`: the sort key is written once; a comment that already has one keeps it.
     */
    method SetSk()
      modifies this`sk
      ensures old(sk).Some? ==> sk == old(sk)
      ensures old(sk).None? ==> sk == Some(SortKey(parentIds, id))
    {
      if sk.None? {
        sk := Some(SortKey(parentIds, id));
      }
    }
  }

  class Thread {
    var comments: seq<Comment>

    constructor (comments: seq<Comment>)
      ensures this.comments == comments
    {
      this.comments := comments;
    }

    /**
     * `Thread.clear_endorsements`: every comment of the thread ends up not endorsed and
     * without an endorsement; the list and every other field are left as they were.
     */
    method ClearEndorsements()
      modifies comments`endorsed, comments`endorsement
      ensures comments == old(comments)
      ensures forall c :: c in comments ==> !c.endorsed && c.endorsement.None?
    {
      for i := 0 to |comments|
        invariant forall j :: 0 <= j < i ==> !comments[j].endorsed && comments[j].endorsement.None?
      {
        comments[i].endorsed := false;
        comments[i].endorsement := None;
      }
    }
  }

  /** After clearing, the comments' other fields are those from before. */
  method ClearEndorsementsKeepsContent(t: Thread, c: Comment)
    requires c in t.comments
    modifies t.comments`endorsed, t.comments`endorsement
    ensures !c.endorsed && c.endorsement.None?
    ensures c.body == old(c.body) && c.sk == old(c.sk) && c.parentIds == old(c.parentIds)
    ensures c.anonymous == old(c.anonymous) && c.anonymousToPeers == old(c.anonymousToPeers)
    ensures c.courseId == old(c.courseId)
  {
    t.ClearEndorsements();
  }

  datatype ThreadDoc = ThreadDoc(id: string, authorId: string, courseId: string, groupId: Option<int>,
                                 anonymous: bool, anonymousToPeers: bool)

  datatype CommentDoc = CommentDoc(authorId: string, courseId: string, commentThreadId: string,
                                   anonymous: bool, anonymousToPeers: bool)

  datatype Subscription = Subscription(subscriberId: string, sourceId: string, sourceType: string)

  /** The documents the queries run over. */
  datatype Store = Store(threads: seq<ThreadDoc>, comments: seq<CommentDoc>, subscriptions: seq<Subscription>)

  /** A dictionary entry that may be absent. */
  datatype Param<T> = Absent | Given(value: T)

  /**
   * The `params` of `User.to_dict`: the `course_id` entry if any, the truthiness of
   * `params.get('complete', True)`, and `params.get('group_ids')` (None or absent as []).
   */
  datatype Params = Params(courseId: Param<Option<string>>, complete: bool, groupIds: seq<int>)

  /** `params={}`. */
  const NoParams := Params(Absent, true, [])

  /** The documents of `s` that satisfy `keep`, in order: a query's result. */
  function Filter<T(!new)>(s: seq<T>, keep: T -> bool): (r: seq<T>)
    ensures |r| <= |s|
    ensures forall x :: x in r <==> x in s && keep(x)
    ensures forall x :: multiset(r)[x] == if keep(x) then multiset(s)[x] else 0
  {
    if s == [] then []
    else
      assert s == [s[0]] + s[1..];
      (if keep(s[0]) then [s[0]] else []) + Filter(s[1..], keep)
  }

  /** A stricter query never returns more documents. */
  lemma {:induction false} FilterStricter<T(!new)>(s: seq<T>, strict: T -> bool, loose: T -> bool)
    requires forall x :: strict(x) ==> loose(x)
    ensures |Filter(s, strict)| <= |Filter(s, loose)|
  {
    if s != [] {
      FilterStricter(s[1..], strict, loose);
    }
  }

  /** `group_id__in=group_ids + [None]`: a thread in one of the groups or posted to all groups. */
  predicate VisibleToGroups(groupIds: seq<int>, groupId: Option<int>)
  {
    groupId.None? || groupId.value in groupIds
  }

  /** The source ids of the given subscriptions, in order. */
  function SourceIds(subs: seq<Subscription>): (r: seq<string>)
    ensures forall id :: id in r <==> exists s :: s in subs && s.sourceId == id
  {
    if subs == [] then [] else [subs[0].sourceId] + SourceIds(subs[1..])
  }

  /** `subscribed_thread_ids`: the sources of the user's subscriptions to threads. */
  function SubscribedThreadIds(u: User, store: Store): seq<string>
  {
    SourceIds(Filter(store.subscriptions, (s: Subscription) => s.subscriberId == u.externalId && s.sourceType == "Thread"))
  }

  /** An id is listed exactly when the user holds a subscription to the thread with that id. */
  lemma SubscribedThreadIdsIff(u: User, store: Store, id: string)
    ensures id in SubscribedThreadIds(u, store) <==>
              exists s :: s in store.subscriptions && s.subscriberId == u.externalId && s.sourceType == "Thread" && s.sourceId == id
  {
  }

  /** The user's own, non-anonymous threads in the course. */
  function AuthoredThreads(u: User, courseId: string, store: Store): seq<ThreadDoc>
  {
    Filter(store.threads, (t: ThreadDoc) =>
      t.authorId == u.externalId && t.courseId == courseId && !t.anonymous && !t.anonymousToPeers)
  }

  /** The same threads restricted to the given groups and to threads posted to all groups. */
  function GroupThreads(u: User, courseId: string, groupIds: seq<int>, store: Store): seq<ThreadDoc>
  {
    Filter(store.threads, (t: ThreadDoc) =>
      t.authorId == u.externalId && t.courseId == courseId && VisibleToGroups(groupIds, t.groupId)
      && !t.anonymous && !t.anonymousToPeers)
  }

  /** The user's own, non-anonymous comments in the course. */
  function AuthoredComments(u: User, courseId: string, store: Store): seq<CommentDoc>
  {
    Filter(store.comments, (c: CommentDoc) =>
      c.authorId == u.externalId && c.courseId == courseId && !c.anonymous && !c.anonymousToPeers)
  }

  /** `set(doc.comment_thread_id for doc in comments)`: duplicates are dropped. */
  function CommentThreadIds(comments: seq<CommentDoc>): set<string>
  {
    set c | c in comments :: c.commentThreadId
  }

  /** The ids among `ids` of threads visible to the groups. */
  function GroupVisibleThreadIds(ids: set<string>, groupIds: seq<int>, store: Store): (r: set<string>)
    ensures r <= ids
  {
    set t | t in store.threads && t.id in ids && VisibleToGroups(groupIds, t.groupId) :: t.id
  }

  /** `threads_count`. */
  function ThreadsCount(u: User, courseId: string, groupIds: seq<int>, store: Store): nat
  {
    if groupIds != [] then |GroupThreads(u, courseId, groupIds, store)| else |AuthoredThreads(u, courseId, store)|
  }

  /** `comments_count`: with groups, the distinct thread ids commented on that are group-visible. */
  function CommentsCount(u: User, courseId: string, groupIds: seq<int>, store: Store): nat
  {
    if groupIds != [] then
      var ids := CommentThreadIds(AuthoredComments(u, courseId, store));
      |ids * GroupVisibleThreadIds(ids, groupIds, store)|
    else |AuthoredComments(u, courseId, store)|
  }

  /** The course id `to_dict` settles on: the `course_id` entry of `params` if present, else the user's attribute. */
  function CourseIdOf(u: User, params: Params): Option<string>
  {
    match params.courseId
    case Given(v) => v
    case Absent => u.courseId
  }

  /** Whether that course id is truthy. */
  predicate HasCourse(u: User, params: Params)
  {
    CourseIdOf(u, params).Some? && CourseIdOf(u, params).value != ""
  }

  /** `User.upvoted_ids`: a stub that is always empty. */
  function UpvotedIds(u: User): (r: seq<string>)
    ensures r == []
  {
    []
  }

  /** `User.downvoted_ids`: a stub that is always empty. */
  function DownvotedIds(u: User): (r: seq<string>)
    ensures r == []
  {
    []
  }

  datatype ActiveThreadsPage = ActiveThreadsPage(collection: seq<ThreadDoc>, page: int, numPages: int)

  /** `User.active_threads`: a stub that answers an empty first page of one. */
  function ActiveThreads(u: User, queryParams: map<string, string>): (r: ActiveThreadsPage)
    ensures r.collection == [] && r.page == 1 && r.numPages == 1
  {
    ActiveThreadsPage([], 1, 1)
  }

  const BaseKeys: set<string> := {"username", "external_id"}
  const CompleteKeys: set<string> := {"subscribed_thread_ids", "id", "upvoted_ids", "downvoted_ids", "default_sort_key"}
  const CountKeys: set<string> := {"threads_count", "comments_count"}

  /** The loop of `to_dict` that counts the commented-on thread ids that are group-visible. */
  method CountIn(ids: set<string>, visible: set<string>) returns (count: nat)
    ensures count == |ids * visible|
  {
    count := 0;
    var todo := ids;
    while todo != {}
      invariant todo <= ids
      invariant count == |(ids - todo) * visible|
      decreases todo
    {
      var id :| id in todo;
      CountStep(ids, todo, id, visible);
      if id in visible {
        count := count + 1;
      }
      todo := todo - {id};
    }
    assert ids - todo == ids;
  }

  /** Visiting one more id adds one to the count exactly when that id is visible. */
  lemma CountStep(ids: set<string>, todo: set<string>, id: string, visible: set<string>)
    requires id in todo
    ensures |(ids - (todo - {id})) * visible| == |(ids - todo) * visible| + (if id in visible && id in ids then 1 else 0)
  {
    var done := ids - todo;
    if id in ids {
      assert ids - (todo - {id}) == done + {id};
      if id in visible {
        assert (done + {id}) * visible == done * visible + {id};
      } else {
        assert (done + {id}) * visible == done * visible;
      }
    } else {
      assert ids - (todo - {id}) == done;
    }
  }

  /** A subset is no larger than its superset. */
  lemma {:induction false} SubsetCardinality(a: set<string>, b: set<string>)
    requires a <= b
    ensures |a| <= |b|
    decreases |b|
  {
    if a != {} {
      var x :| x in a;
      SubsetCardinality(a - {x}, b - {x});
    }
  }

  /**
   * The dictionary `to_dict` builds once the queries have answered: `subscribed` is the
   * subscribed thread ids, `counts` the thread and comment counts when a course id is known.
   */
  function Entries(u: User, complete: bool, subscribed: seq<string>, counts: Option<(nat, nat)>): map<string, Value>
  {
    var base := map["username" := Str(u.username), "external_id" := Str(u.externalId)];
    var withVotes :=
      if complete then
        base["subscribed_thread_ids" := Ids(subscribed)]
            ["id" := Str(u.externalId)]
            ["upvoted_ids" := Ids(UpvotedIds(u))]
            ["downvoted_ids" := Ids(DownvotedIds(u))]
            ["default_sort_key" := Str(u.defaultSortKey)]
      else base;
    if counts.Some? then withVotes["threads_count" := Count(counts.value.0)]["comments_count" := Count(counts.value.1)]
    else withVotes
  }

  /** The keys and values of that dictionary: later entries never overwrite earlier ones. */
  lemma EntriesAt(u: User, complete: bool, subscribed: seq<string>, counts: Option<(nat, nat)>)
    ensures var hash := Entries(u, complete, subscribed, counts);
            && hash.Keys == BaseKeys + (if complete then CompleteKeys else {}) + (if counts.Some? then CountKeys else {})
            && hash["username"] == Str(u.username) && hash["external_id"] == Str(u.externalId)
            && (complete ==>
                  && hash["subscribed_thread_ids"] == Ids(subscribed)
                  && hash["id"] == Str(u.externalId)
                  && hash["upvoted_ids"] == Ids([])
                  && hash["downvoted_ids"] == Ids([])
                  && hash["default_sort_key"] == Str(u.defaultSortKey))
            && (counts.Some? ==>
                  && hash["threads_count"] == Count(counts.value.0)
                  && hash["comments_count"] == Count(counts.value.1))
  {
  }

  /**
   * `User.to_dict(params)`: always the user name and external id; the subscription and
   * vote fields unless `complete` is false; the thread and comment counts when a course
   * id is known.
   */
  method ToDict(u: User, params: Params, store: Store) returns (hash: map<string, Value>)
    ensures hash.Keys == BaseKeys + (if params.complete then CompleteKeys else {})
                                  + (if HasCourse(u, params) then CountKeys else {})
    ensures hash["username"] == Str(u.username) && hash["external_id"] == Str(u.externalId)
    ensures params.complete ==>
              && hash["subscribed_thread_ids"] == Ids(SubscribedThreadIds(u, store))
              && hash["id"] == Str(u.externalId)
              && hash["upvoted_ids"] == Ids(UpvotedIds(u))
              && hash["downvoted_ids"] == Ids(DownvotedIds(u))
              && hash["default_sort_key"] == Str(u.defaultSortKey)
    ensures HasCourse(u, params) ==>
              var courseId := CourseIdOf(u, params).value;
              && hash["threads_count"] == Count(ThreadsCount(u, courseId, params.groupIds, store))
              && hash["comments_count"] == Count(CommentsCount(u, courseId, params.groupIds, store))
  {
    var courseId := CourseIdOf(u, params);
    var subscribed := SubscribedThreadIds(u, store);
    hash := map["username" := Str(u.username), "external_id" := Str(u.externalId)];
    if params.complete {
      hash := hash["subscribed_thread_ids" := Ids(subscribed)]
                  ["id" := Str(u.externalId)]
                  ["upvoted_ids" := Ids(UpvotedIds(u))]
                  ["downvoted_ids" := Ids(DownvotedIds(u))]
                  ["default_sort_key" := Str(u.defaultSortKey)];
    }
    var counts: Option<(nat, nat)> := None;
    if courseId.Some? && courseId.value != "" {
      var threadsCount, commentsCount := Counts(u, courseId.value, params.groupIds, store);
      hash := hash["threads_count" := Count(threadsCount)]["comments_count" := Count(commentsCount)];
      counts := Some((threadsCount, commentsCount));
    }
    assert hash == Entries(u, params.complete, subscribed, counts);
    EntriesAt(u, params.complete, subscribed, counts);
  }

  /** The `threads_count` and `comments_count` that `to_dict` computes for a course, with or without groups. */
  method Counts(u: User, course: string, groupIds: seq<int>, store: Store) returns (threads: nat, comments: nat)
    ensures threads == ThreadsCount(u, course, groupIds, store)
    ensures comments == CommentsCount(u, course, groupIds, store)
  {
    if groupIds != [] {
      threads := |GroupThreads(u, course, groupIds, store)|;
      var commentThreadIds := CommentThreadIds(AuthoredComments(u, course, store));
      var groupVisibleThreadIds := GroupVisibleThreadIds(commentThreadIds, groupIds, store);
      comments := CountIn(commentThreadIds, groupVisibleThreadIds);
    } else {
      threads := |AuthoredThreads(u, course, store)|;
      comments := |AuthoredComments(u, course, store)|;
    }
  }

  /** The cardinality of the set of values a sequence maps to is at most its length. */
  lemma {:induction false} ThreadIdsAtMostComments(comments: seq<CommentDoc>)
    ensures |CommentThreadIds(comments)| <= |comments|
  {
    if comments != [] {
      ThreadIdsAtMostComments(comments[1..]);
      assert CommentThreadIds(comments) == CommentThreadIds(comments[1..]) + {comments[0].commentThreadId};
    }
  }

  /**
   * With groups, the counts never exceed the counts without them; the comment count is
   * the number of distinct group-visible threads commented on, at most the number of
   * distinct threads commented on.
   */
  lemma GroupedCountsBounded(u: User, courseId: string, groupIds: seq<int>, store: Store)
    requires groupIds != []
    ensures ThreadsCount(u, courseId, groupIds, store) <= ThreadsCount(u, courseId, [], store)
    ensures var ids := CommentThreadIds(AuthoredComments(u, courseId, store));
            CommentsCount(u, courseId, groupIds, store) == |GroupVisibleThreadIds(ids, groupIds, store)|
            && CommentsCount(u, courseId, groupIds, store) <= |ids|
    ensures CommentsCount(u, courseId, groupIds, store) <= CommentsCount(u, courseId, [], store)
  {
    FilterStricter(store.threads,
      (t: ThreadDoc) => t.authorId == u.externalId && t.courseId == courseId && VisibleToGroups(groupIds, t.groupId)
                        && !t.anonymous && !t.anonymousToPeers,
      (t: ThreadDoc) => t.authorId == u.externalId && t.courseId == courseId && !t.anonymous && !t.anonymousToPeers);
    var comments := AuthoredComments(u, courseId, store);
    var ids := CommentThreadIds(comments);
    var visible := GroupVisibleThreadIds(ids, groupIds, store);
    assert ids * visible == visible;
    SubsetCardinality(visible, ids);
    ThreadIdsAtMostComments(comments);
  }

  /**
   * Two comments by the user on one thread posted to all groups count twice without
   * groups but once with them: the set of thread ids drops the duplicate.
   */
  lemma DuplicateCommentsCountOnceWithGroups(u: User)
    ensures var thread := ThreadDoc("t1", "someone", "c1", None, false, false);
            var comment := CommentDoc(u.externalId, "c1", "t1", false, false);
            var store := Store([thread], [comment, comment], []);
            && CommentsCount(u, "c1", [], store) == 2
            && CommentsCount(u, "c1", [7], store) == 1
  {
    var thread := ThreadDoc("t1", "someone", "c1", None, false, false);
    var comment := CommentDoc(u.externalId, "c1", "t1", false, false);
    var store := Store([thread], [comment, comment], []);
    var comments := AuthoredComments(u, "c1", store);
    assert store.comments[1..] == [comment];
    assert comments == [comment, comment];
    var ids := CommentThreadIds(comments);
    assert ids == {"t1"};
    assert GroupVisibleThreadIds(ids, [7], store) == {"t1"};
  }

  /** `Subscription.to_dict`: exactly the three fields, copied. */
  function SubscriptionToDict(s: Subscription): (d: map<string, string>)
    ensures d.Keys == {"subscriber_id", "source_id", "source_type"}
    ensures d["subscriber_id"] == s.subscriberId && d["source_id"] == s.sourceId && d["source_type"] == s.sourceType
  {
    map["subscriber_id" := s.subscriberId, "source_id" := s.sourceId, "source_type" := s.sourceType]
  }

  /** Reading a subscription back from its dictionary. */
  function SubscriptionFromDict(d: map<string, string>): Subscription
    requires "subscriber_id" in d && "source_id" in d && "source_type" in d
  {
    Subscription(d["subscriber_id"], d["source_id"], d["source_type"])
  }

  /** The dictionary determines the subscription, and every dictionary with those keys is one. */
  lemma SubscriptionDictRoundTrip(s: Subscription, d: map<string, string>)
    ensures SubscriptionFromDict(SubscriptionToDict(s)) == s
    ensures d.Keys == {"subscriber_id", "source_id", "source_type"} ==> SubscriptionToDict(SubscriptionFromDict(d)) == d
  {
    if d.Keys == {"subscriber_id", "source_id", "source_type"} {
      var e := SubscriptionToDict(SubscriptionFromDict(d));
      assert forall k :: k in d ==> e[k] == d[k];
    }
  }
}
