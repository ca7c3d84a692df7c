/** What the forum views share: the post record, the vote toggle and the
    replacement of the counters by the values the vote procedure returns. */
module Forum {
  import opened Common
  import opened JsonValues

  /** A `forum_posts` row as the views hold it; the counters are nullable
      columns, the author name and reply count are filled in by the views. */
  datatype ForumPost = ForumPost(
    id: string,
    title: string,
    content: string,
    upvotes: Option<int>,
    downvotes: Option<int>,
    createdAt: string,
    userId: string,
    forumId: Option<string>,
    authorName: Option<string>,
    replyCount: Option<int>)

  datatype VoteType = Upvote | Downvote

  /** The wire name of a vote type, which is also what the current-vote
      procedure reports. */
  function VoteName(t: VoteType): string {
    match t
    case Upvote => "upvote"
    case Downvote => "downvote"
  }

  /** The local vote after a successful vote of type `t`: voting the same
      type again clears it, anything else becomes `t`. */
  function ToggleVote(current: Option<string>, t: VoteType): (next: Option<string>)
    ensures next.None? <==> current == Some(VoteName(t))
    ensures next.Some? ==> next == Some(VoteName(t))
  {
    if current == Some(VoteName(t)) then None else Some(VoteName(t))
  }

  /** Voting the same type twice returns to where it started, from no vote
      and from a vote of that type; switching types lands on the new type. */
  lemma ToggleTwice(t: VoteType, u: VoteType)
    ensures ToggleVote(ToggleVote(None, t), t) == None
    ensures ToggleVote(ToggleVote(Some(VoteName(t)), t), t) == Some(VoteName(t))
    ensures t != u ==> ToggleVote(Some(VoteName(u)), t) == Some(VoteName(t))
  {
    if t != u {
      assert VoteName(t) != VoteName(u) by {
        assert VoteName(t)[0] != VoteName(u)[0];
      }
    }
  }

  /** The outcome of a procedure call: an error, returned data, or a throw. */
  datatype RpcResult = RpcError(message: string) | RpcData(data: Json) | RpcThrew

  /** The vote succeeded: no error and truthy data. */
  predicate VoteAccepted(r: RpcResult) {
    r.RpcData? && Truthy(r.data)
  }

  /** The number stored at `key` of a returned object; missing when the
      data is not an object, lacks the key, or holds no number there. */
  function NumberField(data: Json, key: string): (n: Option<int>)
    ensures n.Some? <==> data.JObject? && key in data.fields && data.fields[key].JNumber?
    ensures n.Some? ==> data.fields[key] == JNumber(n.value)
  {
    if data.JObject? && key in data.fields && data.fields[key].JNumber?
    then Some(data.fields[key].n) else None
  }

  /** The post with both counters taken from the returned data and every
      other field unchanged. */
  function WithCounts(p: ForumPost, data: Json): (q: ForumPost)
    ensures q.upvotes == NumberField(data, "upvotes")
    ensures q.downvotes == NumberField(data, "downvotes")
    ensures q.(upvotes := p.upvotes, downvotes := p.downvotes) == p
  {
    p.(upvotes := NumberField(data, "upvotes"), downvotes := NumberField(data, "downvotes"))
  }

  /** The counters after a vote do not depend on the counters before it:
      the server values replace them, there is no local increment. */
  lemma CountsAreReplacedNotIncremented(p: ForumPost, up: Option<int>, down: Option<int>, data: Json)
    ensures WithCounts(p, data) == WithCounts(p.(upvotes := up, downvotes := down), data)
  {
  }
}
