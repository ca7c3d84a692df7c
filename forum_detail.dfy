/** The forum page: its post list with anonymized author names, the
    new-post form and the category badge. */
module ForumDetail {
  import opened Common
  import opened Strings
  import opened Lists
  import opened Profiles
  import opened Forum

  const AnonymousUser := "Anonymous User"
  const PostCreatedMessage := "Post created successfully!"
  const PostFailedMessage := "Failed to create post. Please try again."

  /** The authors to look up: each distinct poster once, in first-post
      order. */
  function ProfileLookupIds(posts: seq<ForumPost>): (ids: seq<string>)
    ensures NoDuplicates(ids)
    ensures forall i :: 0 <= i < |posts| ==> posts[i].userId in ids
    ensures forall k :: 0 <= k < |ids| ==> exists i :: 0 <= i < |posts| && posts[i].userId == ids[k]
  {
    var userIds := MapSeq((p: ForumPost) => p.userId, posts);
    assert forall i :: 0 <= i < |posts| ==> posts[i].userId == userIds[i];
    Distinct(userIds)
  }

  /** The id-to-name map built from the lookups; an error or an empty
      display name gives "Anonymous User". */
  function AuthorNames(ids: seq<string>, lookup: string -> ProfileLookup): (names: map<string, string>)
    ensures forall id :: id in names <==> id in ids
    ensures forall id :: id in names ==> names[id] != ""
    ensures forall id :: id in names ==> names[id] == DisplayName(lookup(id), AnonymousUser)
  {
    map id | id in ids :: DisplayName(lookup(id), AnonymousUser)
  }

  /** The posts with their author name (the looked-up one, "Anonymous"
      when absent) and a reply count of 0. */
  function PostsWithAuthors(posts: seq<ForumPost>, names: map<string, string>): (r: seq<ForumPost>)
    ensures |r| == |posts|
    ensures forall i :: 0 <= i < |r| ==>
              r[i].(authorName := posts[i].authorName, replyCount := posts[i].replyCount) == posts[i]
    ensures forall i :: 0 <= i < |r| ==>
              r[i].replyCount == Some(0) && r[i].authorName.Some? && r[i].authorName.value != ""
    ensures forall i :: 0 <= i < |r| && posts[i].userId in names && names[posts[i].userId] != "" ==>
              r[i].authorName == Some(names[posts[i].userId])
  {
    seq(|posts|, i requires 0 <= i < |posts| =>
      var uid := posts[i].userId;
      var name := if uid in names && names[uid] != "" then names[uid] else Anonymous;
      posts[i].(authorName := Some(name), replyCount := Some(0)))
  }

  /** Every poster is looked up, so each post's author is the result of
      its own lookup and the "Anonymous" fallback is never reached. */
  lemma AuthorIsLookupResult(posts: seq<ForumPost>, lookup: string -> ProfileLookup, i: nat)
    requires i < |posts|
    ensures PostsWithAuthors(posts, AuthorNames(ProfileLookupIds(posts), lookup))[i].authorName
            == Some(DisplayName(lookup(posts[i].userId), AnonymousUser))
  {
    var ids := ProfileLookupIds(posts);
    assert posts[i].userId in ids;
  }

  /** `category.charAt(0).toUpperCase() + category.slice(1).replace('-', ' ')`. */
  function CategoryLabel(category: string): (badge: string)
    ensures |badge| == |category|
  {
    if category == [] then []
    else [UpperChar(category[0])] + ReplaceFirst(category[1..], '-', ' ')
  }

  /** The label upper-cases the first character and turns only the first
      dash after it into a space. */
  lemma CategoryLabelChanges(category: string)
    requires category != []
    ensures CategoryLabel(category)[0] == UpperChar(category[0])
    ensures '-' !in category[1..] ==> CategoryLabel(category)[1..] == category[1..]
    ensures '-' in category[1..] ==>
              var i := 1 + IndexOf(category[1..], '-');
              CategoryLabel(category) == [UpperChar(category[0])] + category[1..i] + [' '] + category[i + 1..]
  {
    var tail := category[1..];
    var head := [UpperChar(category[0])];
    var rest := ReplaceFirst(tail, '-', ' ');
    assert CategoryLabel(category) == head + rest;
    ReplaceFirstSpec(tail, '-', ' ');
    if '-' in tail {
      var j := IndexOf(tail, '-');
      assert rest == tail[..j] + [' '] + tail[j + 1..];
      assert tail[..j] == category[1..j + 1];
      assert tail[j + 1..] == category[j + 2..];
    } else {
      assert (head + rest)[1..] == rest;
    }
  }

  /** A second dash stays: "q-and-a" is shown as "Q and-a". */
  lemma SecondDashIsKept()
    ensures CategoryLabel("q-and-a") == "Q and-a"
  {
    assert "q-and-a"[1..] == "-and-a";
    assert "-and-a"[1..] == "and-a";
  }

  /** The row a successful create inserts: title and content as typed. */
  datatype NewPost = NewPost(title: string, content: string)

  class ForumDetailView {
    const forumId: string
    const signedIn: bool
    var posts: seq<ForumPost>
    var loading: bool
    var dialogOpen: bool
    var newTitle: string
    var newContent: string
    var toasts: seq<string>

    constructor (forumId: string, signedIn: bool)
      ensures this.forumId == forumId && this.signedIn == signedIn
      ensures posts == [] && loading && !dialogOpen && newTitle == "" && newContent == "" && toasts == []
    {
      this.forumId, this.signedIn := forumId, signedIn;
      posts, loading, dialogOpen := [], true, false;
      newTitle, newContent, toasts := "", "", [];
    }

    /** `fetchForumPosts`: an error or an empty result clears the list;
        otherwise each distinct poster is looked up once (`lookedUp`) and
        the posts get their author names. Loading ends on every path. */
    method FetchForumPosts(response: QueryResult<Option<seq<ForumPost>>>, lookup: string -> ProfileLookup)
      returns (lookedUp: seq<string>)
      modifies this`posts, this`loading
      ensures !loading
      ensures response.QueryError? || response.data.GetOr([]) == [] ==> posts == [] && lookedUp == []
      ensures response.QueryOk? && response.data.GetOr([]) != [] ==>
                lookedUp == ProfileLookupIds(response.data.value) &&
                posts == PostsWithAuthors(response.data.value, AuthorNames(lookedUp, lookup))
    {
      loading := true;
      lookedUp := [];
      if response.QueryError? || response.data.GetOr([]) == [] {
        posts := [];
      } else {
        var data := response.data.value;
        lookedUp := ProfileLookupIds(data);
        posts := PostsWithAuthors(data, AuthorNames(lookedUp, lookup));
      }
      loading := false;
    }

    /** `handleCreatePost`: nothing happens without a user or with a blank
        title or content. Otherwise the title and content are inserted as
        typed; on success the dialog closes, the form empties and the list
        is fetched again (`refetch`); any error shows a toast. */
    method HandleCreatePost(insert: WriteResult) returns (inserted: Option<NewPost>, refetch: bool)
      modifies this`dialogOpen, this`newTitle, this`newContent, this`toasts
      ensures inserted == (if signedIn && !IsBlank(old(newTitle)) && !IsBlank(old(newContent))
                           then Some(NewPost(old(newTitle), old(newContent))) else None)
      ensures refetch <==> inserted.Some? && insert.WriteOk?
      ensures refetch ==> !dialogOpen && newTitle == "" && newContent == "" &&
                          toasts == old(toasts) + [PostCreatedMessage]
      ensures !refetch ==> dialogOpen == old(dialogOpen) && newTitle == old(newTitle) && newContent == old(newContent)
      ensures inserted.Some? && !insert.WriteOk? ==> toasts == old(toasts) + [PostFailedMessage]
      ensures inserted.None? ==> toasts == old(toasts)
    {
      inserted, refetch := None, false;
      var titleBlank, contentBlank := Trim(newTitle) == "", Trim(newContent) == "";
      assert titleBlank == IsBlank(newTitle) && contentBlank == IsBlank(newContent);
      if !signedIn || titleBlank || contentBlank {
        return;
      }
      inserted := Some(NewPost(newTitle, newContent));
      if insert.WriteOk? {
        toasts := toasts + [PostCreatedMessage];
        dialogOpen, newTitle, newContent := false, "", "";
        refetch := true;
      } else {
        toasts := toasts + [PostFailedMessage];
      }
    }
  }
}
