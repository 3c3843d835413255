/**
 * TokenList (hadloc/grammar/token_list.py): a list of tokens with an offset
 * that the grammars move; reads are relative to the offset.
 */
module TokenLists {
  import opened Wrappers

  class TokenList<T> {
    const tokens: seq<T>
    var offset: int

    /** `TokenList(tokens)`: offset 0. */
    constructor(tokens: seq<T>)
      ensures this.tokens == tokens && offset == 0
    {
      this.tokens := tokens;
      offset := 0;
    }

    /** `tl[index]`: `tokens[offset + index]` with Python's list indexing,
        where a negative position counts from the end and a position
        outside the list raises IndexError. */
    function At(index: int): (r: Result<T>)
      reads this
      ensures r.Success? <==> -|tokens| <= offset + index < |tokens|
      ensures r.Success? ==> r.value == tokens[if offset + index < 0 then |tokens| + offset + index else offset + index]
    {
      var p := offset + index;
      if 0 <= p < |tokens| then Success(tokens[p])
      else if -|tokens| <= p < 0 then Success(tokens[|tokens| + p])
      else Failure(Python("IndexError"))
    }

    /** `has_more()`. */
    predicate HasMore()
      reads this
    {
      offset < |tokens|
    }
  }
}
