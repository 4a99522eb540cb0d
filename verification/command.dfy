/** `Command`: one quick command square, identified by its id. */
module Commands {

  /** `Command(id, title, emojiText)`; Kotlin defaults `emojiText` to "". */
  datatype Command = Command(id: string, title: string, emojiText: string)
}
