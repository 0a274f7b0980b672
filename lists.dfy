/**
 * A list object. The mapping layer keeps some sequences in list objects whose
 * `Equals` is the one inherited from `object`: two lists are equal only when
 * they are the same object, whatever they hold.
 */
module Lists {
  class List<T> {
    const elements: seq<T>

    constructor (elements: seq<T>)
      ensures this.elements == elements
    {
      this.elements := elements;
    }
  }
}
