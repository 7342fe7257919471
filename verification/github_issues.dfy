/**
 * The shape of a GitHub issue as the issue client hands it to the matcher
 * (src/lib/github-api.ts). Records reaching the matcher have already passed
 * the schema's validation.
 */
module GithubIssues {
  import opened Wrappers

  /** One label attached to an issue. */
  datatype Label = Label(name: string)

  /** The repository an issue belongs to; `language` may be null and `topics` may be missing. */
  datatype Repository = Repository(
    fullName: string,
    htmlUrl: string,
    language: Option<string>,
    topics: Option<seq<string>>)

  /** An open issue; `body` may be null. */
  datatype Issue = Issue(
    id: int,
    title: string,
    htmlUrl: string,
    body: Option<string>,
    createdAt: string,
    repository: Repository,
    labels: seq<Label>)
}
