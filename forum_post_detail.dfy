/** The post page: the post with its author, its replies with theirs, the
    user's vote and the reply form. */
module ForumPostDetail {
  import opened Common
  import opened Strings
  import opened Lists
  import opened Profiles
  import opened Forum

  const PostNotFoundMessage := "Post not found"
  const VoteFailedMessage := "Failed to vote"
  const ReplyPostedMessage := "Reply posted successfully!"
  const ReplyFailedMessage := "Failed to post reply"

  /** A `forum_post_replies` row, with the author name the page fills in. */
  datatype Reply = Reply(id: string, content: string, createdAt: string, userId: string, authorName: Option<string>)

  /** The loads the mount effect starts. */
  datatype PostFetch = FetchPost | FetchForum | FetchReplies | FetchUserVote

  /** Nothing is fetched unless both route ids are present; the user's vote
      only with a user. */
  function MountFetches(postId: Option<string>, forumId: Option<string>, signedIn: bool): (fs: seq<PostFetch>)
    ensures fs == [] <==> !(Present(postId) && Present(forumId))
    ensures FetchUserVote in fs <==> Present(postId) && Present(forumId) && signedIn
    ensures fs != [] ==> |fs| >= 3 && fs[..3] == [FetchPost, FetchForum, FetchReplies]
  {
    if !(Present(postId) && Present(forumId)) then []
    else [FetchPost, FetchForum, FetchReplies] + (if signedIn then [FetchUserVote] else [])
  }

  /** The profile a `Map` built from `rows` holds for `id`: the last row
      with that id. */
  function ProfileFor(rows: seq<NamedProfile>, id: string): (p: Option<NamedProfile>)
    ensures p.None? <==> forall k :: 0 <= k < |rows| ==> rows[k].id != id
    ensures p.Some? ==> exists k :: LastWithId(rows, id, k) && rows[k] == p.value
    decreases |rows|
  {
    if rows == [] then None
    else if rows[|rows| - 1].id == id then
      assert LastWithId(rows, id, |rows| - 1);
      Some(rows[|rows| - 1])
    else
      var init := rows[..|rows| - 1];
      var p := ProfileFor(init, id);
      assert forall k :: 0 <= k < |rows| - 1 ==> rows[k] == init[k];
      assert p.Some? ==> exists k :: LastWithId(rows, id, k) && rows[k] == p.value by {
        if p.Some? {
          var k :| LastWithId(init, id, k) && init[k] == p.value;
          assert LastWithId(rows, id, k);
        }
      }
      p
  }

  /** Row `k` carries `id` and no later row does. */
  ghost predicate LastWithId(rows: seq<NamedProfile>, id: string, k: int) {
    0 <= k < |rows| && rows[k].id == id && forall m :: k < m < |rows| ==> rows[m].id != id
  }

  /** The replies in query order with their author names: "first last"
      trimmed from the matching profile, "Anonymous" without one (and for
      every reply when the profile query returned nothing). */
  function RepliesWithAuthors(replies: seq<Reply>, profiles: Option<seq<NamedProfile>>): (r: seq<Reply>)
    ensures |r| == |replies|
    ensures forall i :: 0 <= i < |r| ==> r[i].(authorName := replies[i].authorName) == replies[i]
    ensures forall i :: 0 <= i < |r| ==> r[i].authorName.Some? && r[i].authorName.value != ""
    ensures forall i :: 0 <= i < |r| ==>
              r[i].authorName == Some(AuthorName(ProfileFor(profiles.GetOr([]), replies[i].userId)))
    ensures profiles.None? ==> forall i :: 0 <= i < |r| ==> r[i].authorName == Some(Anonymous)
  {
    var rows := profiles.GetOr([]);
    seq(|replies|, i requires 0 <= i < |replies| =>
      replies[i].(authorName := Some(AuthorName(ProfileFor(rows, replies[i].userId)))))
  }

  /** A reply whose author has no profile row is shown as "Anonymous". */
  lemma ReplyWithoutProfileIsAnonymous(replies: seq<Reply>, rows: seq<NamedProfile>, i: nat)
    requires i < |replies|
    requires forall k :: 0 <= k < |rows| ==> rows[k].id != replies[i].userId
    ensures RepliesWithAuthors(replies, Some(rows))[i].authorName == Some(Anonymous)
  {
  }

  class PostDetailView {
    const signedIn: bool
    var post: Option<ForumPost>
    var replies: seq<Reply>
    var loading: bool
    var userVote: Option<string>
    var newReply: string
    var submittingReply: bool
    var toasts: seq<string>

    constructor (signedIn: bool)
      ensures this.signedIn == signedIn
      ensures post.None? && replies == [] && loading && userVote.None?
      ensures newReply == "" && !submittingReply && toasts == []
    {
      this.signedIn := signedIn;
      post, replies, loading, userVote := None, [], true, None;
      newReply, submittingReply, toasts := "", false, [];
    }

    /** `fetchPostData`: an error or no row reports "Post not found" and
        goes back to the forum; otherwise the post is stored with its
        author's name. Loading ends either way. */
    method FetchPostData(result: QueryResult<Option<ForumPost>>, profile: Option<NamedProfile>)
      returns (navigatedBack: bool)
      modifies this`post, this`loading, this`toasts
      ensures !loading
      ensures navigatedBack <==> result.QueryError? || result.data.None?
      ensures navigatedBack ==> post == old(post) && toasts == old(toasts) + [PostNotFoundMessage]
      ensures !navigatedBack ==>
                post == Some(result.data.value.(authorName := Some(AuthorName(profile)))) &&
                toasts == old(toasts)
    {
      navigatedBack := result.QueryError? || result.data.None?;
      if navigatedBack {
        toasts := toasts + [PostNotFoundMessage];
      } else {
        post := Some(result.data.value.(authorName := Some(AuthorName(profile))));
      }
      loading := false;
    }

    /** `fetchReplies`: with no rows (or an error, which returns none) the
        replies stay as they were; otherwise one profile query is made for
        the distinct authors (`queried`) and the replies are replaced. */
    method FetchReplies(rows: Option<seq<Reply>>, profiles: Option<seq<NamedProfile>>)
      returns (queried: seq<string>)
      modifies this`replies
      ensures rows.GetOr([]) == [] ==> replies == old(replies) && queried == []
      ensures rows.GetOr([]) != [] ==>
                queried == Distinct(MapSeq((r: Reply) => r.userId, rows.value)) &&
                replies == RepliesWithAuthors(rows.value, profiles)
    {
      queried := [];
      if rows.GetOr([]) != [] {
        queried := Distinct(MapSeq((r: Reply) => r.userId, rows.value));
        replies := RepliesWithAuthors(rows.value, profiles);
      }
    }

    /** `fetchUserVote`: the reported vote, or none when the call failed. */
    method FetchUserVote(data: Option<string>)
      modifies this`userVote
      ensures userVote == data
    {
      userVote := data;
    }

    /** `handleVote`: without a user or a post nothing happens. A vote that
        returns truthy data replaces both counters with the returned ones
        and toggles the local vote; an error or empty data changes nothing;
        a throw shows a toast. */
    method HandleVote(t: VoteType, response: RpcResult) returns (called: bool)
      modifies this`post, this`userVote, this`toasts
      ensures called <==> signedIn && old(post).Some?
      ensures called && VoteAccepted(response) ==>
                post == Some(WithCounts(old(post).value, response.data)) &&
                userVote == ToggleVote(old(userVote), t)
      ensures !(called && VoteAccepted(response)) ==> post == old(post) && userVote == old(userVote)
      ensures toasts == (if called && response.RpcThrew? then old(toasts) + [VoteFailedMessage] else old(toasts))
    {
      called := signedIn && post.Some?;
      if !called {
        return;
      }
      if VoteAccepted(response) {
        post := Some(WithCounts(post.value, response.data));
        userVote := ToggleVote(userVote, t);
      } else if response.RpcThrew? {
        toasts := toasts + [VoteFailedMessage];
      }
    }

    /** `handleReplySubmit`: nothing happens without a user or with a blank
        reply. Otherwise the trimmed reply is inserted; on success the input
        empties and the replies are fetched again (`refetch`); a returned
        error is silent, a throw shows a toast; submitting ends on every
        path. */
    method HandleReplySubmit(insert: WriteResult) returns (inserted: Option<string>, refetch: bool)
      modifies this`newReply, this`submittingReply, this`toasts
      ensures inserted == (if signedIn && !IsBlank(old(newReply)) then Some(Trim(old(newReply))) else None)
      ensures inserted.Some? ==> inserted.value != "" && !submittingReply
      ensures inserted.None? ==> submittingReply == old(submittingReply) && toasts == old(toasts)
      ensures refetch <==> inserted.Some? && insert.WriteOk?
      ensures refetch ==> newReply == "" && toasts == old(toasts) + [ReplyPostedMessage]
      ensures !refetch ==> newReply == old(newReply)
      ensures inserted.Some? && insert.WriteRejected? ==> toasts == old(toasts)
      ensures inserted.Some? && insert.WriteThrew? ==> toasts == old(toasts) + [ReplyFailedMessage]
    {
      inserted, refetch := None, false;
      var content := Trim(newReply);
      if !signedIn || content == "" {
        return;
      }
      submittingReply := true;
      inserted := Some(content);
      match insert {
        case WriteOk =>
          newReply := "";
          refetch := true;
          toasts := toasts + [ReplyPostedMessage];
        case WriteRejected(_, _) =>
        case WriteThrew =>
          toasts := toasts + [ReplyFailedMessage];
      }
      submittingReply := false;
    }
  }
}
