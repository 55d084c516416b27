/** The GitHub objects carried by webhook payloads (internal/models/github.go).
    They are plain records; timestamps and the optional assignee are not kept. */
module Models {
  import opened Text

  datatype User = User(id: int, login: Bytes, htmlUrl: Bytes, avatarUrl: Bytes)

  datatype Repository = Repository(
    id: int, name: Bytes, fullName: Bytes, htmlUrl: Bytes,
    cloneUrl: Bytes, sshUrl: Bytes, owner: User)

  datatype Label = Label(id: int, name: Bytes, color: Bytes, description: Bytes)

  datatype Issue = Issue(
    id: int, number: int, title: Bytes, body: Bytes, state: Bytes,
    htmlUrl: Bytes, url: Bytes, user: User, labels: seq<Label>)

  datatype PRBranch = PRBranch(ref: Bytes, sha: Bytes, repo: Repository)

  datatype PullRequest = PullRequest(
    id: int, number: int, title: Bytes, body: Bytes, state: Bytes, htmlUrl: Bytes,
    user: User, head: PRBranch, base: PRBranch, merged: bool, draft: bool)

  datatype Comment = Comment(id: int, body: Bytes, user: User, htmlUrl: Bytes)

  /** An inbound delivery: the X-GitHub-Event type, the delivery id and the raw body. */
  datatype GitHubEvent = GitHubEvent(eventType: Bytes, deliveryId: Bytes, payload: Bytes)

  /** What JSON decoding of a payload yields. Every typed event (IssuesEvent,
      IssueCommentEvent, PullRequestEvent, PullRequestReviewCommentEvent) reads
      its fields from this one object; fields the JSON lacks hold zero values. */
  datatype Payload = Payload(
    action: Bytes, number: int, issue: Issue, comment: Comment,
    pullRequest: PullRequest, repository: Repository, sender: User)

  /** json.Unmarshal of a payload, an injected partial decoder. */
  type Decoder = Bytes -> Option<Payload>
}
