/** Half-open ranges of wrapping sequence numbers. */
module Ranges {
  import opened Words

  datatype Range = Range(begin: word, end: word) {

    function Front(): word { begin }

    function Back(): word { SubWords(end, 1) }

    /** The signed difference of the ends, cast back to unsigned. */
    function Size(): word { Wrap(Difference(end, begin)) }

    predicate Empty() { begin == end }

    function At(index: word): word { AddWords(begin, index) }

    function First(count: word): Range {
      Range(begin, AddWords(begin, if Size() < count then Size() else count))
    }

    function Skip(count: word): Range {
      Range(AddWords(begin, if Size() < count then Size() else count), end)
    }

    /** This range stands for the unbounded numbers from `b` up to, not
        including, `e`. */
    ghost predicate Denotes(b: int, e: int) {
      0 <= e - b < TWO63 && begin == Wrap(b) && end == Wrap(e)
    }
  }

  lemma SizeRefines(r: Range, b: int, e: int)
    requires r.Denotes(b, e)
    ensures r.Size() == e - b
    ensures r.Empty() <==> b == e
  {
    DifferenceRefines(e, b);
    PrecedesRefines(e, b);
    WrapSmall(e - b);
  }

  /** The ends and the elements are the words of the numbers the range stands
      for, wherever the words wrap. */
  lemma ElementsRefine(r: Range, b: int, e: int)
    requires r.Denotes(b, e)
    ensures r.Back() == Wrap(e - 1)
    ensures forall i: word :: i < e - b ==> r.At(i) == Wrap(b + i)
  {
    WrapIsHomomorphic(e, 1);
    forall i: word | i < e - b ensures r.At(i) == Wrap(b + i) {
      AddSmall(b, i);
    }
  }

  lemma AddSmall(b: int, i: word)
    ensures AddWords(Wrap(b), i) == Wrap(b + i)
  {
    WrapSmall(i);
    WrapIsHomomorphic(b, i);
  }

  /** `First` and `Skip` of one count cut the range in two at the same place,
      and a count beyond the end takes everything. */
  lemma FirstAndSkipSplit(r: Range, b: int, e: int, count: word)
    requires r.Denotes(b, e)
    ensures var cut := if e - b < count then e else b + count;
            r.First(count).Denotes(b, cut) && r.Skip(count).Denotes(cut, e)
  {
    SizeRefines(r, b, e);
    AddSmall(b, if e - b < count then e - b else count);
  }
}
