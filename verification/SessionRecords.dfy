/** The drafts of an issue set and what the session directory remembers of filing them. */
module SessionRecords {
  import opened Outcomes

  datatype IssueDraft = IssueDraft(handle: string, title: string, labels: seq<string>, body: string, blockedBy: seq<string>)

  datatype FiledTicket = FiledTicket(handle: string, number: nat, databaseId: nat, title: string)

  datatype IssueRef = IssueRef(number: nat, databaseId: nat)

  /** A record without a spec says that the spec step was taken and nothing was filed. */
  datatype CandidateRecord = CandidateRecord(spec: Option<IssueRef>, specTitle: string, filed: seq<FiledTicket>, labelsApplied: bool)
}
