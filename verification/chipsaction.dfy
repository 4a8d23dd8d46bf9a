/**
 * The chipsaction record: a paid message that a supporter attaches to a place
 * (a beacon, identified by its UUID), and the ordered dictionary that the
 * proof-of-work serialiser sees of it.
 */
module Chipsactions {
  import opened Wrappers

  /** A value stored in an ordered dictionary: a text field or an amount. */
  datatype Value = Text(text: string) | Number(number: int)

  /** An `OrderedDict`: its entries in insertion order. */
  type OrderedDict = seq<(string, Value)>

  /** The keys of an ordered dictionary, in order. */
  function Keys(d: OrderedDict): (keys: seq<string>)
    ensures |keys| == |d|
    ensures forall i :: 0 <= i < |d| ==> keys[i] == d[i].0
  {
    if d == [] then [] else [d[0].0] + Keys(d[1..])
  }

  /** The fixed key order of `to_ordered_dict`, with the recipient key spelled as the program spells it. */
  const ChipKeys: seq<string> := ["sender", "recipinet", "placeID", "message", "amount"]

  /**
   * The record.  Its fields follow the positional order of the Python
   * constructor `Chipsaction(sender, recipient, place, message, signature, amount)`;
   * the `place` argument is stored as `placeID`.
   */
  datatype Chipsaction = Chipsaction(
    sender: string,
    recipient: string,
    placeID: string,
    message: string,
    signature: string,
    amount: int)
  {
    /**
     * The five entries that take part in the proof of work.  The signature is
     * not one of them; everything else is recovered by `FromOrderedDict`.
     */
    function ToOrderedDict(): (d: OrderedDict)
      ensures |d| == 5 && Keys(d) == ChipKeys
      ensures FromOrderedDict(d, signature) == Some(this)
    {
      [("sender", Text(sender)), ("recipinet", Text(recipient)), ("placeID", Text(placeID)),
       ("message", Text(message)), ("amount", Number(amount))]
    }
  }

  /**
   * Reads a chipsaction back from the five entries of `ToOrderedDict`; the
   * signature, which the dictionary does not carry, has to be supplied.
   */
  function FromOrderedDict(d: OrderedDict, signature: string): (c: Option<Chipsaction>)
    ensures c.Some? ==> Keys(d) == ChipKeys && c.value.signature == signature
  {
    if |d| == 5 && Keys(d) == ChipKeys
       && d[0].1.Text? && d[1].1.Text? && d[2].1.Text? && d[3].1.Text? && d[4].1.Number?
    then Some(Chipsaction(d[0].1.text, d[1].1.text, d[2].1.text, d[3].1.text, signature, d[4].1.number))
    else None
  }

  /** Two chipsactions agree on every field except, possibly, the signature. */
  predicate SameButSignature(a: Chipsaction, b: Chipsaction) {
    a.(signature := b.signature) == b
  }

  /**
   * `to_ordered_dict` is a function of the fields, and of every field but the
   * signature: two chipsactions serialise identically exactly when they differ
   * at most in their signatures.
   */
  lemma OrderedDictIgnoresOnlySignature(a: Chipsaction, b: Chipsaction)
    ensures a.ToOrderedDict() == b.ToOrderedDict() <==> SameButSignature(a, b)
  {
    if a.ToOrderedDict() == b.ToOrderedDict() {
      var d := a.ToOrderedDict();
      assert FromOrderedDict(d, b.signature) == Some(b);
      assert FromOrderedDict(d, b.signature) == Some(a.(signature := b.signature));
    }
  }
}
