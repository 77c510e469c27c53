/** Extractor: pulls the text chunks out of one exported conversation record
    (`extract_text_parts` in gpthistory/helpers.py).

    A record is a nested dictionary; every key the extractor reads may be
    missing, so each one is an `Option`. A key that is present but holds an
    empty dictionary leads to the same result as a missing key (the source
    tests the dictionary for truthiness and an empty one has no keys to read),
    so the model does not distinguish the two. */
module Extractor {
  import opened Options

  /** `record['message']['content']`: the discriminator and the text parts. */
  datatype Content = Content(contentType: Option<string>, parts: Option<seq<string>>)

  /** `record['message']` */
  datatype Message = Message(content: Option<Content>)

  /** One exported conversation record (only the keys the extractor reads). */
  datatype ConversationRecord = ConversationRecord(message: Option<Message>)

  const TEXT_CONTENT_TYPE: string := "text"

  /** True when the record carries a content of type "text". */
  predicate HasTextContent(record: ConversationRecord)
  {
    && record.message.Some?
    && record.message.value.content.Some?
    && record.message.value.content.value.contentType == Some(TEXT_CONTENT_TYPE)
  }

  /** The text chunks of a record: its `parts`, as they are, when the content
      is of type "text"; no chunks otherwise. Never fails. */
  function ExtractTextParts(record: ConversationRecord): (parts: seq<string>)
    // no message, or no content, or a content that is not text: nothing
    ensures record.message.None? ==> parts == []
    ensures record.message.Some? && record.message.value.content.None? ==> parts == []
    ensures !HasTextContent(record) ==> parts == []
    // text content: exactly its parts, same elements in the same order
    ensures HasTextContent(record) && record.message.value.content.value.parts.Some? ==>
              parts == record.message.value.content.value.parts.value
    // text content without a `parts` key: nothing
    ensures HasTextContent(record) && record.message.value.content.value.parts.None? ==>
              parts == []
  {
    var textParts := [];
    match record.message
    case None => textParts
    case Some(message) =>
      match message.content
      case None => textParts
      case Some(content) =>
        if content.contentType == Some(TEXT_CONTENT_TYPE) then
          textParts + (match content.parts case Some(p) => p case None => [])
        else
          textParts
  }
}
