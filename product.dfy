/**
 * The Product entity of src/main.py: a priced, counted inventory item whose
 * price only changes through a guarded setter, and the `new_product`
 * factory that either builds a fresh Product or merges the incoming data
 * into the first listed Product of the same name.
 */
module Products {
  import opened Wrappers
  import opened Confirmation

  /** The exceptions the core raises. */
  datatype Error = ValueError | TypeError

  /** What the price setter is given: a number, or a value of another type. */
  datatype PriceInput = Number(value: real) | NotANumber

  /** The branch the price setter took. Only `Lowered` and `Applied` write the price. */
  datatype PriceOutcome =
    | RejectedNotANumber   // "price must be a number"
    | RejectedNotPositive  // "price must not be zero or negative"
    | Lowered              // a decrease, confirmed with "y"
    | LoweringCancelled    // a decrease, declined with "n"
    | InputEnded           // a decrease, and the answers ran out: input() raises EOFError
    | Applied              // an increase or an equal price, set at once

  /** The effect of one call of the setter: its branch, the new price, the answers read. */
  datatype PriceChange = PriceChange(outcome: PriceOutcome, price: real, consumed: nat)

  /** True for the branches that write the new price. */
  predicate Writes(o: PriceOutcome) {
    o == Lowered || o == Applied
  }

  /**
   * The price setter (src/main.py:15-48) as a function of the current price,
   * the value given and the answers the user would type.
   */
  function Change(current: real, input: PriceInput, answers: seq<string>): (c: PriceChange)
    ensures c.consumed <= |answers|
    // only a decrease asks, and only the two writing branches change the price,
    // always to the positive number given
    ensures Writes(c.outcome) ==> input.Number? && c.price == input.value && c.price > 0.0
    ensures !Writes(c.outcome) ==> c.price == current
    ensures c.consumed > 0 ==> input.Number? && 0.0 < input.value < current
  {
    match input
    case NotANumber => PriceChange(RejectedNotANumber, current, 0)
    case Number(v) =>
      if v <= 0.0 then PriceChange(RejectedNotPositive, current, 0)
      else if v < current then
        match Ask(answers)
        case Affirmed(k) => PriceChange(Lowered, v, k)
        case Declined(k) => PriceChange(LoweringCancelled, current, k)
        case EndOfInput => PriceChange(InputEnded, current, |answers|)
      else PriceChange(Applied, v, 0)
  }

  /** A non-number or a price of zero or below is refused softly: nothing changes, nothing is read. */
  lemma RejectsInvalidPrice(current: real, input: PriceInput, answers: seq<string>)
    requires input.NotANumber? || input.value <= 0.0
    ensures Change(current, input, answers).price == current
    ensures Change(current, input, answers).consumed == 0
    ensures !Writes(Change(current, input, answers).outcome)
  {
  }

  /** An equal or higher positive price is stored exactly, whatever the answers. */
  lemma RaiseNeedsNoAnswer(current: real, v: real, answers: seq<string>)
    requires 0.0 < v && current <= v
    ensures Change(current, Number(v), answers) == PriceChange(Applied, v, 0)
  {
  }

  /** Setting the same price a second time changes nothing and asks nothing. */
  lemma SetTwiceIdempotent(current: real, v: real, first: seq<string>, second: seq<string>)
    requires Writes(Change(current, Number(v), first).outcome)
    ensures Change(Change(current, Number(v), first).price, Number(v), second)
            == PriceChange(Applied, v, 0)
  {
  }

  /**
   * A decrease is applied exactly when the first answer that is "y" or "n"
   * (in either case) is "y"; that answer is the last one read.
   */
  lemma LoweringDecidedByFirstValidAnswer(current: real, v: real, answers: seq<string>, k: nat)
    requires 0.0 < v < current
    requires k < |answers| && IsValid(answers[k])
    requires forall j :: 0 <= j < k ==> !IsValid(answers[j])
    ensures Change(current, Number(v), answers).consumed == k + 1
    ensures Change(current, Number(v), answers).price == if IsYes(answers[k]) then v else current
    ensures Change(current, Number(v), answers).outcome ==
              if answers[k] == "y" || answers[k] == "Y" then Lowered else LoweringCancelled
  {
  }

  /** Invalid answers before the deciding one are read and have no other effect. */
  lemma LoweringSkipsInvalid(current: real, v: real, junk: seq<string>, rest: seq<string>)
    requires 0.0 < v < current
    requires forall j :: 0 <= j < |junk| ==> !IsValid(junk[j])
    ensures Change(current, Number(v), junk + rest).price == Change(current, Number(v), rest).price
    ensures Change(current, Number(v), junk + rest).outcome == Change(current, Number(v), rest).outcome
    ensures Change(current, Number(v), junk + rest).consumed
            == |junk| + Change(current, Number(v), rest).consumed
  {
    SkipsInvalid(junk, rest);
  }

  /** A positive price stays positive under every call of the setter. */
  lemma PositivePriceKept(current: real, input: PriceInput, answers: seq<string>)
    requires current > 0.0
    ensures Change(current, input, answers).price > 0.0
  {
  }

  class Product {
    var name: string
    var description: string
    /** The private `__price`: it is read directly (the getter) and written only by SetPrice. */
    var price: real
    var quantity: int

    constructor (name: string, description: string, price: real, quantity: int)
      ensures this.name == name && this.description == description
      ensures this.price == price && this.quantity == quantity
    {
      this.name := name;
      this.description := description;
      this.price := price;
      this.quantity := quantity;
    }

    /**
     * The guarded price setter. A decrease reads answers until the first
     * one that is "y" or "n" after lowercasing.
     */
    method SetPrice(input: PriceInput, answers: seq<string>) returns (outcome: PriceOutcome, consumed: nat)
      modifies this`price
      ensures PriceChange(outcome, price, consumed) == Change(old(price), input, answers)
      ensures old(price) > 0.0 ==> price > 0.0
    {
      if input.NotANumber? {
        return RejectedNotANumber, 0;
      }
      var v := input.value;
      if v <= 0.0 {
        return RejectedNotPositive, 0;
      }
      if v < price {
        var i := 0;
        while true
          invariant i <= |answers|
          invariant forall j :: 0 <= j < i ==> !IsValid(answers[j])
          invariant price == old(price)
          decreases |answers| - i
        {
          if i == |answers| {
            return InputEnded, i;
          }
          var answer := Lower(answers[i]);
          if answer == "y" {
            price := v;
            return Lowered, i + 1;
          } else if answer == "n" {
            return LoweringCancelled, i + 1;
          }
          i := i + 1;
        }
      } else {
        price := v;
        return Applied, 0;
      }
    }

    /**
     * `Product.new_product`: validates the record, then updates in place the
     * first listed product with the same name and returns that very object,
     * or else returns a fresh Product built from the record.
     */
    static method NewProduct(data: ProductData, existing: Option<seq<Product>>) returns (r: Result<Product, Error>)
      modifies Listed(existing)
      ensures Validate(data).Failure? ==> r == Failure(ValueError) && unchanged(Listed(existing))
      ensures Validate(data).Success? ==> r.Success?
      ensures match Validate(data)
        case Failure(_) => true
        case Success(f) =>
          match old(FirstNamed(Listed(existing), f.name))
          case None =>
            fresh(r.value) && r.value.name == f.name && r.value.description == f.description &&
            r.value.price == f.price && r.value.quantity == f.quantity &&
            unchanged(Listed(existing))
          case Some(i) =>
            var p := Listed(existing)[i];
            r.value == p &&
            p.quantity == old(p.quantity) + f.quantity &&
            p.price == MergedPrice(old(p.price), f.price) &&
            p.name == old(p.name) && p.description == old(p.description) &&
            forall q :: q in Listed(existing) && q != p ==> unchanged(q)
    {
      var checked := Validate(data);
      if checked.Failure? {
        return Failure(ValueError);
      }
      var f := checked.value;
      if existing.Some? && |existing.value| > 0 {
        var ps := existing.value;
        var i := 0;
        while i < |ps|
          invariant 0 <= i <= |ps|
          invariant forall j :: 0 <= j < i ==> ps[j].name != f.name
          invariant unchanged(ps)
        {
          var p := ps[i];
          if p.name == f.name {
            p.quantity := p.quantity + f.quantity;
            if f.price > p.price {
              var _, _ := p.SetPrice(Number(f.price), []);
            }
            return Success(p);
          }
          i := i + 1;
        }
      }
      var p := new Product(f.name, f.description, f.price, f.quantity);
      return Success(p);
    }
  }

  /** The incoming record of `new_product`: each key may be missing. */
  datatype ProductData = ProductData(
    name: Option<string>,
    description: Option<string>,
    price: Option<real>,
    quantity: Option<int>)

  /** The fields of a record that passed validation. */
  datatype Fields = Fields(name: string, description: string, price: real, quantity: int)

  /**
   * The validation of `new_product`: name, description and price must be
   * present and truthy (so "" and 0 count as missing), quantity only present
   * (so 0 is accepted).
   */
  function Validate(data: ProductData): (r: Result<Fields, Error>)
    ensures r.Success? ==>
      data == ProductData(Some(r.value.name), Some(r.value.description),
                          Some(r.value.price), Some(r.value.quantity)) &&
      r.value.name != "" && r.value.description != "" && r.value.price != 0.0
    ensures r.Failure? ==>
      r.error == ValueError &&
      (data.name in {None, Some("")} || data.description in {None, Some("")} ||
       data.price in {None, Some(0.0)} || data.quantity == None)
  {
    match data
    case ProductData(Some(n), Some(d), Some(p), Some(q)) =>
      if n != "" && d != "" && p != 0.0 then Success(Fields(n, d, p, q)) else Failure(ValueError)
    case _ => Failure(ValueError)
  }

  /** A quantity of zero is present, so it passes validation. */
  lemma ZeroQuantityAccepted(name: string, description: string, price: real)
    requires name != "" && description != "" && price != 0.0
    ensures Validate(ProductData(Some(name), Some(description), Some(price), Some(0)))
            == Success(Fields(name, description, price, 0))
  {
  }

  /** The index of the first product named `name`, if any. */
  function FirstNamed(ps: seq<Product>, name: string): (m: Option<nat>)
    reads ps
    ensures m.Some? ==>
      m.value < |ps| && ps[m.value].name == name &&
      forall j :: 0 <= j < m.value ==> ps[j].name != name
    ensures m.None? ==> forall j :: 0 <= j < |ps| ==> ps[j].name != name
  {
    if ps == [] then None
    else if ps[0].name == name then Some(0)
    else
      match FirstNamed(ps[1..], name)
      case Some(i) => Some(i + 1)
      case None => None
  }

  /**
   * The price after a merge: an incoming price above the current one goes
   * through the setter (which never asks here); a lower one is ignored.
   */
  function MergedPrice(current: real, incoming: real): (p: real)
    ensures current <= p
    ensures p == current || p == incoming
    ensures current > 0.0 ==> p == if incoming > current then incoming else current
  {
    if incoming > current then Change(current, Number(incoming), []).price else current
  }

  /** A merge never runs the confirmation exchange. */
  lemma MergeNeverAsks(current: real, incoming: real, answers: seq<string>)
    requires incoming > current
    ensures Change(current, Number(incoming), answers).consumed == 0
    ensures Change(current, Number(incoming), answers).price == MergedPrice(current, incoming)
  {
  }

  /** The products `new_product` may update: those of the list, if one is given. */
  function Listed(existing: Option<seq<Product>>): seq<Product> {
    if existing.Some? then existing.value else []
  }
}
