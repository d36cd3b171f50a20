/** The comment list of `PostComments`: fetched pages are merged into the list
    through a JavaScript `Map` keyed by comment id, pagination is overwritten
    from each response, and a submitted comment is prepended locally. The
    merge and the construction of a new comment are pure; the component's
    state and its handlers form a class. */
module Comments {
  import opened Common

  datatype Comment = Comment(
    id: int, memberId: int, memberName: string, postId: int, content: string,
    anonymous: bool, createdAt: string, updatedAt: Option<string>)

  /** The page envelope `fetchCommentsApi` resolves to. */
  datatype CommentPage = CommentPage(
    content: seq<Comment>, totalElements: int, totalPages: int, size: int, number: int)

  /** The arguments of a `fetchCommentsApi(postId, page, size)` call. */
  datatype CommentsRequest = CommentsRequest(postId: int, page: int, size: int)

  /** The arguments of a `fetchCommentWriteApi(postId, content)` call. */
  datatype WriteRequest = WriteRequest(postId: int, content: string)

  /** Display name of a comment submitted anonymously. */
  const AnonymousName: string := "익명"

  const InitialPagination: Pagination := Pagination(0, 0, 10, 0)

  // ---------------------------------------------------------------------
  // A JavaScript `Map<number, Comment>`: keys in insertion order and the
  // value stored under each key.

  datatype JsMap = JsMap(keys: seq<int>, vals: map<int, Comment>)

  /** Setting key `k` to `v`: a new key goes to the end; an existing key keeps its
      position and takes the new value. */
  function MapSet(m: JsMap, k: int, v: Comment): JsMap {
    if k in m.vals then JsMap(m.keys, m.vals[k := v])
    else JsMap(m.keys + [k], m.vals[k := v])
  }

  predicate DistinctKeys(keys: seq<int>) {
    forall i, j :: 0 <= i < j < |keys| ==> keys[i] != keys[j]
  }

  /** The `Map` built from the comments of `s` keyed by id, setting the
      entries left to right. */
  function FromEntries(s: seq<Comment>): (m: JsMap)
    ensures DistinctKeys(m.keys)
    ensures forall k :: k in m.vals <==> k in m.keys
    decreases |s|
  {
    if s == [] then JsMap([], map[])
    else
      var x := s[|s| - 1];
      MapSet(FromEntries(s[..|s| - 1]), x.id, x)
  }

  /** The values of the map, in key order. */
  function Values(m: JsMap): seq<Comment>
    requires forall i :: 0 <= i < |m.keys| ==> m.keys[i] in m.vals
  {
    seq(|m.keys|, i requires 0 <= i < |m.keys| => m.vals[m.keys[i]])
  }

  /** The de-duplication of the comment list: the values of the `Map` keyed by id. */
  function Dedup(s: seq<Comment>): seq<Comment> {
    var m := FromEntries(s);
    Values(m)
  }

  /** The list after a fetched page arrives: the old list followed by the
      page, de-duplicated. */
  function Merge(prev: seq<Comment>, page: seq<Comment>): seq<Comment> {
    Dedup(prev + page)
  }

  // ---------------------------------------------------------------------
  // An independent description of the merged list.

  function Ids(s: seq<Comment>): seq<int> {
    seq(|s|, i requires 0 <= i < |s| => s[i].id)
  }

  /** Index of the first comment of `s` carrying id `k`. */
  function FirstIndex(s: seq<Comment>, k: int): (i: nat)
    requires k in Ids(s)
    ensures i < |s| && s[i].id == k
    ensures forall j :: 0 <= j < i ==> s[j].id != k
    decreases |s|
  {
    if s[0].id == k then 0
    else
      assert Ids(s[1..]) == Ids(s)[1..];
      1 + FirstIndex(s[1..], k)
  }

  /** Index of the last comment of `s` carrying id `k`. */
  function LastIndex(s: seq<Comment>, k: int): (i: nat)
    requires k in Ids(s)
    ensures i < |s| && s[i].id == k
    ensures forall j :: i < j < |s| ==> s[j].id != k
    decreases |s|
  {
    if s[|s| - 1].id == k then |s| - 1
    else
      assert Ids(s[..|s| - 1]) == Ids(s)[..|s| - 1];
      LastIndex(s[..|s| - 1], k)
  }

  predicate UniqueIds(r: seq<Comment>) {
    forall i, j :: 0 <= i < j < |r| ==> r[i].id != r[j].id
  }

  predicate Increasing(a: seq<int>) {
    forall i, j :: 0 <= i < j < |a| ==> a[i] < a[j]
  }

  /** The first-occurrence index in `s` of each of `keys`. */
  function Positions(keys: seq<int>, s: seq<Comment>): seq<int>
    requires forall k :: k in keys ==> k in Ids(s)
  {
    seq(|keys|, i requires 0 <= i < |keys| => FirstIndex(s, keys[i]))
  }

  /** `r` holds each id of `s` exactly once, in the order in which the ids first
      occur in `s`, each with the payload of its last occurrence in `s`. */
  ghost predicate MergedFrom(r: seq<Comment>, s: seq<Comment>) {
    UniqueIds(r) &&
    (forall k :: k in Ids(r) <==> k in Ids(s)) &&
    (forall i :: 0 <= i < |r| ==> r[i].id in Ids(s) && r[i] == s[LastIndex(s, r[i].id)]) &&
    Increasing(Positions(Ids(r), s))
  }

  lemma FirstIndexIs(s: seq<Comment>, k: int, i: int)
    requires 0 <= i < |s| && s[i].id == k
    requires forall j :: 0 <= j < i ==> s[j].id != k
    ensures k in Ids(s) && FirstIndex(s, k) == i
  {
    assert Ids(s)[i] == k;
  }

  lemma LastIndexIs(s: seq<Comment>, k: int, i: int)
    requires 0 <= i < |s| && s[i].id == k
    requires forall j :: i < j < |s| ==> s[j].id != k
    ensures k in Ids(s) && LastIndex(s, k) == i
  {
    assert Ids(s)[i] == k;
  }

  lemma IdsAppend(a: seq<Comment>, b: seq<Comment>)
    ensures Ids(a + b) == Ids(a) + Ids(b)
  {
  }

  lemma InIds(s: seq<Comment>, k: int)
    ensures k in Ids(s) <==> exists i :: 0 <= i < |s| && s[i].id == k
  {
    if exists i :: 0 <= i < |s| && s[i].id == k {
      var i :| 0 <= i < |s| && s[i].id == k;
      assert Ids(s)[i] == k;
    }
    if k in Ids(s) {
      var i :| 0 <= i < |Ids(s)| && Ids(s)[i] == k;
      assert s[i].id == k;
    }
  }

  /** The keys of the map built from `s` are the ids of `s`. */
  lemma {:induction false} FromEntriesKeys(s: seq<Comment>)
    ensures forall k :: k in FromEntries(s).vals <==> k in Ids(s)
    decreases |s|
  {
    if s != [] {
      var p, x := s[..|s| - 1], s[|s| - 1];
      assert s == p + [x];
      FromEntriesKeys(p);
      IdsAppend(p, [x]);
      assert FromEntries(s) == MapSet(FromEntries(p), x.id, x);
      assert Ids(s) == Ids(p) + [x.id];
    }
  }

  /** The last occurrence of `k` once `x` is appended. */
  lemma LastIndexSnoc(p: seq<Comment>, x: Comment, k: int)
    requires k == x.id || k in Ids(p)
    ensures k in Ids(p + [x])
    ensures LastIndex(p + [x], k) == if k == x.id then |p| else LastIndex(p, k)
  {
    if k == x.id {
      LastIndexIs(p + [x], k, |p|);
    } else {
      LastIndexIs(p + [x], k, LastIndex(p, k));
    }
  }

  /** Under each key the map holds the last comment of `s` carrying it. */
  lemma {:induction false} FromEntriesValues(s: seq<Comment>)
    ensures forall k :: k in FromEntries(s).vals ==>
      k in Ids(s) && FromEntries(s).vals[k] == s[LastIndex(s, k)]
    decreases |s|
  {
    FromEntriesKeys(s);
    if s != [] {
      var p, x := s[..|s| - 1], s[|s| - 1];
      assert s == p + [x];
      FromEntriesValues(p);
      FromEntriesKeys(p);
      var mp := FromEntries(p);
      var vals := mp.vals[x.id := x];
      assert FromEntries(s).vals == vals;
      forall k | k in vals
        ensures k in Ids(s) && vals[k] == s[LastIndex(s, k)]
      {
        LastIndexSnoc(p, x, k);
      }
    }
  }

  /** First occurrences in a prefix stay first occurrences. */
  lemma PositionsPrefix(keys: seq<int>, p: seq<Comment>, t: seq<Comment>)
    requires forall k :: k in keys ==> k in Ids(p)
    ensures forall k :: k in keys ==> k in Ids(p + t)
    ensures Positions(keys, p + t) == Positions(keys, p)
    ensures forall i :: 0 <= i < |keys| ==> Positions(keys, p)[i] < |p|
  {
    forall k | k in keys
      ensures k in Ids(p + t) && FirstIndex(p + t, k) == FirstIndex(p, k)
    {
      FirstIndexIs(p + t, k, FirstIndex(p, k));
    }
  }

  /** The keys of the map are in first-occurrence order. */
  lemma {:induction false} FromEntriesOrder(s: seq<Comment>)
    ensures forall k :: k in FromEntries(s).keys ==> k in Ids(s)
    ensures Increasing(Positions(FromEntries(s).keys, s))
    decreases |s|
  {
    FromEntriesKeys(s);
    if s != [] {
      var p, x := s[..|s| - 1], s[|s| - 1];
      assert s == p + [x];
      FromEntriesOrder(p);
      FromEntriesKeys(p);
      var mp, m := FromEntries(p), FromEntries(s);
      PositionsPrefix(mp.keys, p, [x]);
      assert m == MapSet(mp, x.id, x);
      if x.id !in mp.vals {
        InIds(p, x.id);
        FirstIndexIs(s, x.id, |p|);
        assert m.keys == mp.keys + [x.id];
        assert Positions(m.keys, s) == Positions(mp.keys, s) + [|p|];
      }
    }
  }

  /** The `Map` de-duplication meets its description. */
  lemma DedupMergedFrom(s: seq<Comment>)
    ensures MergedFrom(Dedup(s), s)
  {
    var m := FromEntries(s);
    var r := Dedup(s);
    FromEntriesKeys(s);
    FromEntriesValues(s);
    FromEntriesOrder(s);
    assert forall i :: 0 <= i < |r| ==> r[i] == m.vals[m.keys[i]] && r[i].id == m.keys[i];
    assert Ids(r) == m.keys;
  }

  /** Two increasing integer sequences with the same elements are equal. */
  lemma {:induction false} IncreasingUnique(a: seq<int>, b: seq<int>)
    requires Increasing(a) && Increasing(b)
    requires forall x :: x in a <==> x in b
    ensures a == b
    decreases |a|
  {
    assert b != [] ==> b[0] in b;
    assert a != [] ==> a[0] in a;
    if a != [] {
      assert a[0] == b[0];
      forall x
        ensures x in a[1..] <==> x in b[1..]
      {
        assert x in a[1..] <==> x in a && x != a[0];
        assert x in b[1..] <==> x in b && x != b[0];
      }
      IncreasingUnique(a[1..], b[1..]);
      assert a == [a[0]] + a[1..] && b == [b[0]] + b[1..];
    }
  }

  /** The description determines the list: at most one list is merged from `s`. */
  lemma MergedFromUnique(r1: seq<Comment>, r2: seq<Comment>, s: seq<Comment>)
    requires MergedFrom(r1, s) && MergedFrom(r2, s)
    ensures r1 == r2
  {
    var f1, f2 := Positions(Ids(r1), s), Positions(Ids(r2), s);
    forall x
      ensures x in f1 ==> x in f2
      ensures x in f2 ==> x in f1
    {
      if x in f1 {
        var i :| 0 <= i < |f1| && f1[i] == x;
        assert Ids(r1)[i] in Ids(r2);
        var j :| 0 <= j < |Ids(r2)| && Ids(r2)[j] == Ids(r1)[i];
        assert f2[j] == x;
      }
      if x in f2 {
        var j :| 0 <= j < |f2| && f2[j] == x;
        assert Ids(r2)[j] in Ids(r1);
        var i :| 0 <= i < |Ids(r1)| && Ids(r1)[i] == Ids(r2)[j];
        assert f1[i] == x;
      }
    }
    IncreasingUnique(f1, f2);
    assert |r1| == |f1| == |f2| == |r2|;
    forall i | 0 <= i < |r1|
      ensures r1[i] == r2[i]
    {
      assert f1[i] == f2[i];
      assert r1[i].id == s[FirstIndex(s, r1[i].id)].id == s[FirstIndex(s, r2[i].id)].id == r2[i].id;
    }
  }

  /** After a merge every id appears once; the ids are those of the old list
      together with those of the page, in first-occurrence order, and each
      comment is the last copy of its id in `prev ++ page`. */
  lemma MergeShape(prev: seq<Comment>, page: seq<Comment>)
    ensures var r := Merge(prev, page);
      MergedFrom(r, prev + page) && UniqueIds(r) &&
      forall k :: k in Ids(r) <==> k in Ids(prev) || k in Ids(page)
  {
    DedupMergedFrom(prev + page);
    IdsAppend(prev, page);
  }

  /** A freshly fetched copy replaces a cached one: a merged comment whose id
      occurs in the page is the page's last comment with that id. */
  lemma MergePageWins(prev: seq<Comment>, page: seq<Comment>, i: int)
    requires 0 <= i < |Merge(prev, page)| && Merge(prev, page)[i].id in Ids(page)
    ensures Merge(prev, page)[i] == page[LastIndex(page, Merge(prev, page)[i].id)]
  {
    var r, k := Merge(prev, page), Merge(prev, page)[i].id;
    DedupMergedFrom(prev + page);
    LastIndexIs(prev + page, k, |prev| + LastIndex(page, k));
  }

  /** A list whose ids are already unique is left as it is. */
  lemma DedupUnique(s: seq<Comment>)
    requires UniqueIds(s)
    ensures Dedup(s) == s
  {
    forall i | 0 <= i < |s|
      ensures s[i].id in Ids(s) && LastIndex(s, s[i].id) == i && FirstIndex(s, s[i].id) == i
    {
      LastIndexIs(s, s[i].id, i);
      FirstIndexIs(s, s[i].id, i);
    }
    assert MergedFrom(s, s);
    DedupMergedFrom(s);
    MergedFromUnique(Dedup(s), s, s);
  }

  /** The last occurrence of an id of `b` in `a + b` lies in `b`. */
  lemma LastIndexAppend(a: seq<Comment>, b: seq<Comment>, k: int)
    requires k in Ids(b)
    ensures k in Ids(a + b) && LastIndex(a + b, k) == |a| + LastIndex(b, k)
  {
    LastIndexIs(a + b, k, |a| + LastIndex(b, k));
  }

  /** Each comment of the merged list is, in the merged list followed by the
      page again, both the first and the last copy of its id. */
  lemma RemergedEntry(prev: seq<Comment>, page: seq<Comment>, i: int)
    requires 0 <= i < |Merge(prev, page)|
    ensures var r := Merge(prev, page);
      r[i].id in Ids(r + page) && r[i] == (r + page)[LastIndex(r + page, r[i].id)] &&
      FirstIndex(r + page, r[i].id) == i
  {
    var p := prev + page;
    var r := Dedup(p);
    var q := r + page;
    var k := r[i].id;
    DedupMergedFrom(p);
    FirstIndexIs(q, k, i);
    if k in Ids(page) {
      LastIndexAppend(prev, page, k);
      LastIndexAppend(r, page, k);
    } else {
      InIds(page, k);
      LastIndexIs(q, k, i);
    }
  }

  /** The merged list, followed by the same page again, still merges to itself. */
  lemma RemergedFrom(prev: seq<Comment>, page: seq<Comment>)
    ensures MergedFrom(Merge(prev, page), Merge(prev, page) + page)
  {
    var p := prev + page;
    var r := Dedup(p);
    var q := r + page;
    DedupMergedFrom(p);
    IdsAppend(prev, page);
    IdsAppend(r, page);
    forall k
      ensures k in Ids(r) <==> k in Ids(q)
    {
      assert k in Ids(page) ==> k in Ids(p);
    }
    forall i | 0 <= i < |r|
      ensures r[i].id in Ids(q) && r[i] == q[LastIndex(q, r[i].id)]
      ensures FirstIndex(q, r[i].id) == i
    {
      RemergedEntry(prev, page, i);
    }
    assert forall i :: 0 <= i < |r| ==> Positions(Ids(r), q)[i] == i;
  }

  /** Merging the same page twice gives the list that merging it once gives. */
  lemma MergeIdempotent(prev: seq<Comment>, page: seq<Comment>)
    ensures Merge(Merge(prev, page), page) == Merge(prev, page)
  {
    var r := Merge(prev, page);
    RemergedFrom(prev, page);
    DedupMergedFrom(r + page);
    MergedFromUnique(Dedup(r + page), r, r + page);
  }

  // ---------------------------------------------------------------------
  // `String.prototype.trim`

  /** ECMAScript WhiteSpace and LineTerminator code points, the characters `trim` removes. */
  predicate IsJsWhitespace(c: char) {
    ('\U{9}' <= c <= '\U{D}') || c == ' ' || c == '\U{A0}' || c == '\U{1680}' ||
    ('\U{2000}' <= c <= '\U{200A}') || c == '\U{2028}' || c == '\U{2029}' ||
    c == '\U{202F}' || c == '\U{205F}' || c == '\U{3000}' || c == '\U{FEFF}'
  }

  /** `s` without its leading whitespace. */
  function TrimStart(s: string): (r: string)
    ensures |r| <= |s| && r == s[|s| - |r|..]
    ensures r == [] || !IsJsWhitespace(r[0])
    ensures forall i :: 0 <= i < |s| - |r| ==> IsJsWhitespace(s[i])
  {
    if s != [] && IsJsWhitespace(s[0]) then TrimStart(s[1..]) else s
  }

  /** `s` without its trailing whitespace. */
  function TrimEnd(s: string): (r: string)
    ensures |r| <= |s| && r == s[..|r|]
    ensures r == [] || !IsJsWhitespace(r[|r| - 1])
    ensures forall i :: |r| <= i < |s| ==> IsJsWhitespace(s[i])
  {
    if s != [] && IsJsWhitespace(s[|s| - 1]) then TrimEnd(s[..|s| - 1]) else s
  }

  function Trim(s: string): string {
    TrimEnd(TrimStart(s))
  }

  predicate IsBlank(s: string) {
    forall i :: 0 <= i < |s| ==> IsJsWhitespace(s[i])
  }

  /** A draft trims to `''` exactly when every character of it is whitespace. */
  lemma TrimBlank(s: string)
    ensures Trim(s) == "" <==> IsBlank(s)
  {
  }

  /** The comment prepended after a write: the server's comment with the id
      `now` and, when posted anonymously, the name `AnonymousName`. */
  function NewCommentData(response: Comment, now: int, isAnonymous: bool): Comment {
    response.(id := now, memberName := if isAnonymous then AnonymousName else response.memberName)
  }

  // ---------------------------------------------------------------------
  // The component's state and handlers.

  class PostComments {
    const postId: int
    var comments: seq<Comment>
    var newComment: string
    var isAnonymous: bool
    var pagination: Pagination

    constructor (postId: int)
      ensures this.postId == postId
      ensures comments == [] && newComment == "" && !isAnonymous
      ensures pagination == InitialPagination
    {
      this.postId := postId;
      comments := [];
      newComment := "";
      isAnonymous := false;
      pagination := InitialPagination;
    }

    /** `fetchComments(postId, page, size)` once the request settles with
        `data` (`None` for a falsy value). */
    method FetchComments(page: int, size: int, data: Option<CommentPage>)
      modifies this
      ensures data.None? ==> comments == old(comments) && pagination == old(pagination)
      ensures data.Some? ==>
        comments == Merge(old(comments), data.value.content) &&
        pagination == Pagination(data.value.totalElements, data.value.totalPages, size, page)
      ensures newComment == old(newComment) && isAnonymous == old(isAnonymous)
    {
      if data.Some? {
        comments := Merge(comments, data.value.content);
        pagination := Pagination(data.value.totalElements, data.value.totalPages, size, page);
      }
    }

    /** Requests `newPage` at the current page size, whatever `totalPages` is,
        and applies the response. */
    method HandlePageChange(newPage: int, data: Option<CommentPage>) returns (request: CommentsRequest)
      modifies this
      ensures request == CommentsRequest(postId, newPage, old(pagination.size))
      ensures data.None? ==> comments == old(comments) && pagination == old(pagination)
      ensures data.Some? ==>
        comments == Merge(old(comments), data.value.content) &&
        pagination == Pagination(data.value.totalElements, data.value.totalPages, old(pagination.size), newPage)
      ensures newComment == old(newComment) && isAnonymous == old(isAnonymous)
    {
      request := CommentsRequest(postId, newPage, pagination.size);
      FetchComments(newPage, pagination.size, data);
    }

    /** The effect that runs whenever the post id, the page number or the page
        size changes: fetches the page the pagination record names and applies
        the response. */
    method FetchEffect(data: Option<CommentPage>) returns (request: CommentsRequest)
      modifies this
      ensures request == CommentsRequest(postId, old(pagination.number), old(pagination.size))
      ensures data.None? ==> comments == old(comments) && pagination == old(pagination)
      ensures data.Some? ==>
        comments == Merge(old(comments), data.value.content) &&
        pagination == Pagination(data.value.totalElements, data.value.totalPages,
                                 old(pagination.size), old(pagination.number))
      ensures newComment == old(newComment) && isAnonymous == old(isAnonymous)
    {
      request := CommentsRequest(postId, pagination.number, pagination.size);
      FetchComments(pagination.number, pagination.size, data);
    }

    /** A page change whose response arrives records the requested page number
        and keeps the page size. The effect runs again only when that number
        differs from the one shown before, and then fetches the same page a
        second time; when the server answers with the same page, the list is
        as after a single merge. A click on the page already shown issues one
        request. */
    method PageChangeWithEffect(newPage: int, data: CommentPage)
      returns (first: CommentsRequest, second: Option<CommentsRequest>)
      modifies this
      ensures first == CommentsRequest(postId, newPage, old(pagination.size))
      ensures second.Some? <==> newPage != old(pagination.number)
      ensures second.Some? ==> second.value == first
      ensures comments == Merge(old(comments), data.content)
      ensures pagination == Pagination(data.totalElements, data.totalPages, old(pagination.size), newPage)
      ensures newComment == old(newComment) && isAnonymous == old(isAnonymous)
    {
      var shown := pagination;
      first := HandlePageChange(newPage, Some(data));
      if pagination.number != shown.number || pagination.size != shown.size {
        var again := FetchEffect(Some(data));
        second := Some(again);
        MergeIdempotent(old(comments), data.content);
      } else {
        second := None;
      }
    }

    method HandleAnonymousChange()
      modifies this
      ensures isAnonymous == !old(isAnonymous)
      ensures comments == old(comments) && newComment == old(newComment) && pagination == old(pagination)
    {
      isAnonymous := !isAnonymous;
    }

    method HandleCommentChange(value: string)
      modifies this
      ensures newComment == value
      ensures comments == old(comments) && isAnonymous == old(isAnonymous) && pagination == old(pagination)
    {
      newComment := value;
    }

    /** `handleCommentSubmit`: a blank draft issues no write; otherwise the
        draft is written and, when the write resolves to a comment, that
        comment is prepended under the id `now`. */
    method HandleCommentSubmit(now: int, response: Option<Comment>) returns (write: Option<WriteRequest>)
      modifies this
      ensures write.Some? <==> !IsBlank(old(newComment))
      ensures write.Some? ==> write.value == WriteRequest(postId, old(newComment))
      ensures write.Some? && response.Some? ==>
        comments == [NewCommentData(response.value, now, old(isAnonymous))] + old(comments) &&
        newComment == "" && !isAnonymous
      ensures write.None? || response.None? ==>
        comments == old(comments) && newComment == old(newComment) && isAnonymous == old(isAnonymous)
      ensures pagination == old(pagination)
    {
      TrimBlank(newComment);
      if Trim(newComment) == "" {
        return None;
      }
      write := Some(WriteRequest(postId, newComment));
      if response.Some? {
        var newCommentData := NewCommentData(response.value, now, isAnonymous);
        comments := [newCommentData] + comments;
        newComment := "";
        isAnonymous := false;
      }
    }
  }
}
