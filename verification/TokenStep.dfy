/** The result of one next_token call, shared by both tokenizers. */
module TokenStep {
  import opened Bytes

  /** Why a call returned NULL. */
  datatype Outcome = CleanEnd | Marker | UnterminatedQuote | BackslashAtEof | IoError {
    /** tokenizer_get_error != TOKENIZER_ERR_NONE */
    predicate Errored() {
      UnterminatedQuote? || BackslashAtEof? || IoError?
    }
  }

  /**
   * A call either delivers a token or returns NULL. lineEnds says whether it reported an
   * input boundary; rest is the input it left unread.
   */
  datatype Step =
    | Token(text: CString, lineEnds: bool, rest: Bytes)
    | Stop(outcome: Outcome, lineEnds: bool, rest: Bytes)
}
