/** The two types of the crate's `core` module that the ENABLE vocabulary is built from. */
module Core {

  import opened Wrappers

  /** An IMAP atom: a non-empty, already validated, case-preserving token. */
  type Atom = s: seq<char> | |s| > 0 witness "A"

  /** `NonEmptyVec<T>`: an ordered collection that cannot be empty. */
  datatype NonEmptyVec<T> = NonEmptyVec(head: T, tail: seq<T>) {

    /** The elements in order. */
    function Items(): (s: seq<T>)
      ensures |s| == 1 + |tail|
      ensures s[0] == head && s[1..] == tail
    {
      [head] + tail
    }
  }

  datatype NonEmptyVecError = Empty

  /** `NonEmptyVec::try_from(Vec<T>)`: fails on an empty vector, keeps order otherwise. */
  function TryFromSeq<T>(s: seq<T>): (r: Result<NonEmptyVec<T>, NonEmptyVecError>)
    ensures r.Err? <==> s == []
    ensures r.Err? ==> r.error == Empty
    ensures r.Ok? ==> r.value.Items() == s
  {
    if s == [] then Err(Empty) else Ok(NonEmptyVec(s[0], s[1..]))
  }

  /** Converting the elements of a non-empty vector back gives that vector. */
  lemma TryFromItems<T>(v: NonEmptyVec<T>)
    ensures TryFromSeq(v.Items()) == Ok(v)
  {
  }
}
