/** The splitter on any text, not only on rendered types. */
module TypeText {
  import opened Wrappers
  import opened TypeList

  /** An opening bracket from `pos` on that is never closed. */
  ghost predicate Unclosed(x: string, pos: nat) {
    exists k :: pos <= k < |x| && x[k] == '<' && EndOfTemplate(x, k + 1).None?
  }

  /**
   In any text the search for the next element stops at a comma or at the limit, and it fails only if the
   limit is beyond the text or some bracket is never closed.
   */
  lemma {:induction false} NextStopsAtComma(x: string, pos: nat, last: nat)
    ensures var r := NextElement(x, pos, last);
            && (r.Some? ==> r.value >= last || (r.value < |x| && x[r.value] == ','))
            && (r.None? ==> pos < last && (last > |x| || Unclosed(x, pos)))
    decreases |x| - pos
  {
    if pos < last && pos < |x| && x[pos] != ',' {
      if x[pos] != '<' {
        NextStopsAtComma(x, pos + 1, last);
      } else if EndOfTemplate(x, pos + 1).Some? {
        NextStopsAtComma(x, EndOfTemplate(x, pos + 1).value, last);
      }
    }
  }
}
