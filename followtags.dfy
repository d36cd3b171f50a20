/** The list of `FollowTagList`: the follow tags of the store that belong to
    the signed-in member, and whether the "no tags" message is shown. */
module FollowTags {
  import opened Common

  datatype FollowTag = FollowTag(tagId: int, tagName: string, memberId: int)

  /** The signed-in member; only `id` is read. */
  datatype Member = Member(id: int)

  /** The store's `followTags`, which is not always an array. */
  datatype FollowTagsValue = TagArray(tags: seq<FollowTag>) | NotAnArray

  /** The tag belongs to the signed-in member; with no member the optional
      id is `undefined`, which equals no number. */
  predicate IsMine(tag: FollowTag, currentUser: Option<Member>) {
    currentUser.Some? && tag.memberId == currentUser.value.id
  }

  /** The tags of the signed-in member, in list order. */
  function FilterMine(tags: seq<FollowTag>, currentUser: Option<Member>): (r: seq<FollowTag>)
    ensures forall t :: t in r <==> t in tags && IsMine(t, currentUser)
    ensures Subseq(r, tags)
  {
    if tags == [] then []
    else
      var rest := FilterMine(tags[1..], currentUser);
      SubseqCons(tags[0], rest, tags[1..]);
      assert tags == [tags[0]] + tags[1..];
      if IsMine(tags[0], currentUser) then [tags[0]] + rest else rest
  }

  lemma {:induction false} FilterMineAppend(a: seq<FollowTag>, b: seq<FollowTag>, currentUser: Option<Member>)
    ensures FilterMine(a + b, currentUser) == FilterMine(a, currentUser) + FilterMine(b, currentUser)
  {
    if a == [] {
      assert a + b == b;
    } else {
      assert (a + b)[0] == a[0] && (a + b)[1..] == a[1..] + b;
      FilterMineAppend(a[1..], b, currentUser);
      assert FilterMine(a + b, currentUser) ==
        (if IsMine(a[0], currentUser) then [a[0]] else []) + FilterMine(a[1..] + b, currentUser);
    }
  }

  /** The filter keeps every tag of the member as often as the list holds it,
      and no other tag. */
  lemma {:induction false} FilterMineMultiplicity(tags: seq<FollowTag>, currentUser: Option<Member>)
    ensures forall t ::
      multiset(FilterMine(tags, currentUser))[t] == if IsMine(t, currentUser) then multiset(tags)[t] else 0
    decreases |tags|
  {
    if tags != [] {
      FilterMineMultiplicity(tags[1..], currentUser);
      assert tags == [tags[0]] + tags[1..];
      assert FilterMine(tags, currentUser) ==
        (if IsMine(tags[0], currentUser) then [tags[0]] else []) + FilterMine(tags[1..], currentUser);
    }
  }

  /** The member's tags when the store holds an array, and none otherwise. */
  function MyFollowTags(followTags: FollowTagsValue, currentUser: Option<Member>): (r: seq<FollowTag>)
    ensures followTags.NotAnArray? || currentUser.None? ==> r == []
    ensures forall t :: t in r ==> currentUser.Some? && t.memberId == currentUser.value.id
    ensures followTags.TagArray? ==>
      Subseq(r, followTags.tags) &&
      (forall t :: t in followTags.tags && IsMine(t, currentUser) ==> t in r) &&
      forall t :: multiset(r)[t] == if IsMine(t, currentUser) then multiset(followTags.tags)[t] else 0
  {
    match followTags
    case NotAnArray => []
    case TagArray(tags) =>
      var r := FilterMine(tags, currentUser);
      FilterMineMultiplicity(tags, currentUser);
      assert r != [] ==> r[0] in r;
      r
  }

  /** The "팔로우한 태그가 없습니다." branch: the member has no tag to list. */
  predicate ShowsNoTagsMessage(followTags: FollowTagsValue, currentUser: Option<Member>) {
    |MyFollowTags(followTags, currentUser)| == 0
  }

  /** The "no tags" message is shown exactly when no tag of an array belongs
      to the signed-in member. */
  lemma NoTagsMessageIff(followTags: FollowTagsValue, currentUser: Option<Member>)
    ensures ShowsNoTagsMessage(followTags, currentUser) <==>
      followTags.NotAnArray? || currentUser.None? ||
      forall i :: 0 <= i < |followTags.tags| ==> followTags.tags[i].memberId != currentUser.value.id
  {
    if followTags.TagArray? && currentUser.Some? {
      var r := MyFollowTags(followTags, currentUser);
      if r != [] {
        assert r[0] in followTags.tags;
      }
      if exists i :: 0 <= i < |followTags.tags| && followTags.tags[i].memberId == currentUser.value.id {
        var i :| 0 <= i < |followTags.tags| && followTags.tags[i].memberId == currentUser.value.id;
        assert followTags.tags[i] in r;
      }
    }
  }
}
