/**
 * Placeholders: the edit requests a document receives. Only the fields the
 * document model reads are kept; the matching and context fields that other
 * services fill in are not.
 */
module Placeholders {
  import opened Wrappers

  datatype Status =
    | MatchingPending
    | MatchesFound
    | MatchesNotFound
    | ReplacementPending
    | ReplacementDone
    | ReplacementNotFound

  /** What the placeholder's replacement should become. */
  datatype FutureElement = FutureParagraph | FutureTable | FutureUnknown

  /** A source passage matched for a placeholder. */
  datatype MatchedNode = MatchedNode(id: string, headingPath: seq<string>, filename: string)

  datatype Placeholder = Placeholder(
    id: string,
    text: string,
    status: Status,
    replacedText: Option<string>,
    replacedReference: Option<seq<string>>,
    replacedComment: Option<string>,
    deleted: Option<bool>,
    matches: seq<MatchedNode>,
    elementId: Option<string>,
    futureElement: FutureElement)
}
