/** The post card in a forum's list: its own copy of the post, the user's
    vote on it, and what it displays. */
module ForumPostCard {
  import opened Common
  import opened Profiles
  import opened JsonValues
  import opened Forum

  const VoteFailedMessage := "Failed to vote"

  /** A count as displayed (`n || 0`): a missing or zero count shows 0. */
  function CountShown(n: Option<int>): (shown: int)
    ensures n.None? ==> shown == 0
    ensures n.Some? ==> shown == n.value
  {
    if n.Some? && n.value != 0 then n.value else 0
  }

  /** The author as displayed: the name when it is a non-empty string,
      otherwise "Anonymous". */
  function AuthorShown(name: Option<string>): (shown: string)
    ensures shown != ""
    ensures Present(name) ==> shown == name.value
    ensures !Present(name) ==> shown == Anonymous
  {
    if Present(name) then name.value else Anonymous
  }

  class PostCard {
    const signedIn: bool
    var post: ForumPost
    var currentPost: ForumPost
    var userVote: Option<string>
    var toasts: seq<string>

    constructor (post: ForumPost, signedIn: bool)
      ensures this.post == post && currentPost == post && this.signedIn == signedIn
      ensures userVote.None? && toasts == []
    {
      this.post, currentPost, this.signedIn := post, post, signedIn;
      userVote, toasts := None, [];
    }

    /** The effect on a new `post` prop: the local copy is replaced by the
        prop as a whole, and the user's vote is fetched when signed in. */
    method PropChanged(newPost: ForumPost) returns (fetchVote: bool)
      modifies this`post, this`currentPost
      ensures post == newPost && currentPost == newPost
      ensures fetchVote == signedIn
    {
      post, currentPost := newPost, newPost;
      fetchVote := signedIn;
    }

    /** `fetchUserVote`: the reported vote, or none when the call failed. */
    method FetchUserVote(data: Option<string>)
      modifies this`userVote
      ensures userVote == data
    {
      userVote := data;
    }

    /** `handleVote`: without a user nothing happens. A vote that returns
        truthy data replaces both counters of the local copy and toggles the
        vote; an error or empty data changes nothing; a throw shows a
        toast. */
    method HandleVote(t: VoteType, response: RpcResult) returns (called: bool)
      modifies this`currentPost, this`userVote, this`toasts
      ensures called == signedIn
      ensures called && VoteAccepted(response) ==>
                currentPost == WithCounts(old(currentPost), response.data) &&
                userVote == ToggleVote(old(userVote), t)
      ensures !(called && VoteAccepted(response)) ==> currentPost == old(currentPost) && userVote == old(userVote)
      ensures toasts == (if called && response.RpcThrew? then old(toasts) + [VoteFailedMessage] else old(toasts))
    {
      called := signedIn;
      if !called {
        return;
      }
      if VoteAccepted(response) {
        currentPost := WithCounts(currentPost, response.data);
        userVote := ToggleVote(userVote, t);
      } else if response.RpcThrew? {
        toasts := toasts + [VoteFailedMessage];
      }
    }
  }

  /** After an accepted vote the card shows exactly the returned numbers. */
  lemma ShownCountsAfterVote(p: ForumPost, up: int, down: int)
    ensures var q := WithCounts(p, JObject(map["upvotes" := JNumber(up), "downvotes" := JNumber(down)]));
            CountShown(q.upvotes) == up && CountShown(q.downvotes) == down
  {
  }
}
