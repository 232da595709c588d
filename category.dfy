/**
 * The Category entity of src/main.py: a named, privately owned list of
 * Products, the rendered `products` view of that list, and the two
 * process-wide counters, held here by an explicit Registry object.
 */
module Categories {
  import opened Wrappers
  import opened Products

  /**
   * The class-level counters `Category.category_count` and
   * `Category.product_count`. A fresh Registry is the state after a reset.
   */
  class Registry {
    var categoryCount: int
    var productCount: int

    constructor ()
      ensures categoryCount == 0 && productCount == 0
    {
      categoryCount := 0;
      productCount := 0;
    }
  }

  /** A value handed to `add_product`: a Product, or an object of any other type. */
  datatype Candidate = AProduct(product: Product) | NotAProduct

  /** One entry of the `products` view: name, current price and current quantity. */
  datatype Entry = Entry(name: string, price: real, quantity: int)

  function EntryOf(p: Product): Entry
    reads p
  {
    Entry(p.name, p.price, p.quantity)
  }

  /** The view of a list of products: one entry per product, in order, from its live fields. */
  function View(ps: seq<Product>): (v: seq<Entry>)
    reads ps
    ensures |v| == |ps|
    ensures forall i :: 0 <= i < |ps| ==> v[i] == Entry(ps[i].name, ps[i].price, ps[i].quantity)
  {
    if ps == [] then [] else [EntryOf(ps[0])] + View(ps[1..])
  }

  /** Adding a product at the end adds its entry at the end of the view. */
  lemma ViewAppend(ps: seq<Product>, p: Product)
    ensures View(ps + [p]) == View(ps) + [EntryOf(p)]
  {
  }

  /** The number of leading candidates that are Products. */
  function LeadingProducts(cs: seq<Candidate>): (k: nat)
    ensures k <= |cs|
    ensures forall j :: 0 <= j < k ==> cs[j].AProduct?
    ensures k < |cs| ==> cs[k].NotAProduct?
  {
    if cs == [] || cs[0].NotAProduct? then 0 else 1 + LeadingProducts(cs[1..])
  }

  class Category {
    var name: string
    var description: string
    /** The private `__products`: only AddProduct changes it. */
    var items: seq<Product>
    /** The counters this category reports to. */
    const registry: Registry

    /**
     * The first step of `Create` (the attribute assignments of `__init__`).
     * It does not count the category, so it is not a way to build a
     * category on its own: use `Create`.
     */
    constructor Empty(registry: Registry, name: string, description: string)
      ensures this.registry == registry && this.name == name && this.description == description
      ensures items == []
    {
      this.registry := registry;
      this.name := name;
      this.description := description;
      items := [];
    }

    /**
     * `Category.__init__`: every initial candidate goes through AddProduct in
     * order, then the category counter goes up once. A non-Product raises
     * TypeError: the products before it have already been counted, and no
     * category is counted.
     */
    static method Create(registry: Registry, name: string, description: string, initial: seq<Candidate>)
      returns (r: Result<Category, Error>)
      modifies registry
      ensures registry.productCount == old(registry.productCount) + LeadingProducts(initial)
      ensures LeadingProducts(initial) < |initial| ==>
        r == Failure(TypeError) && registry.categoryCount == old(registry.categoryCount)
      ensures LeadingProducts(initial) == |initial| ==>
        r.Success? && fresh(r.value) &&
        r.value.registry == registry && r.value.name == name && r.value.description == description &&
        |r.value.items| == |initial| &&
        (forall j :: 0 <= j < |initial| ==> initial[j] == AProduct(r.value.items[j])) &&
        registry.categoryCount == old(registry.categoryCount) + 1
    {
      var c := new Category.Empty(registry, name, description);
      var i := 0;
      while i < |initial|
        invariant 0 <= i <= |initial|
        invariant |c.items| == i
        invariant forall j :: 0 <= j < i ==> initial[j] == AProduct(c.items[j])
        invariant registry.productCount == old(registry.productCount) + i
        invariant registry.categoryCount == old(registry.categoryCount)
        invariant fresh(c) && c.registry == registry && c.name == name && c.description == description
      {
        ghost var before := c.items;
        var added := c.AddProduct(initial[i]);
        if added.Failure? {
          assert LeadingProducts(initial) == i by {
            var k := LeadingProducts(initial);
            assert initial[i].NotAProduct?;
            assert !(k < i) && !(i < k);
          }
          return Failure(TypeError);
        }
        forall j | 0 <= j <= i
          ensures initial[j] == AProduct(c.items[j])
        {
          if j < i {
            assert c.items[j] == before[j];
          }
        }
        i := i + 1;
      }
      assert LeadingProducts(initial) == |initial|;
      registry.categoryCount := registry.categoryCount + 1;
      return Success(c);
    }

    /**
     * `add_product`: a non-Product raises TypeError and changes nothing;
     * a Product is appended and counted once.
     */
    method AddProduct(c: Candidate) returns (r: Result<(), Error>)
      modifies this`items, registry`productCount
      ensures c.NotAProduct? ==>
        r == Failure(TypeError) && items == old(items) &&
        registry.productCount == old(registry.productCount)
      ensures c.AProduct? ==>
        r == Success(()) && items == old(items) + [c.product] &&
        registry.productCount == old(registry.productCount) + 1
      ensures View(items) == old(View(items)) + if c.AProduct? then [EntryOf(c.product)] else []
    {
      if c.NotAProduct? {
        return Failure(TypeError);
      }
      ViewAppend(items, c.product);
      items := items + [c.product];
      registry.productCount := registry.productCount + 1;
      return Success(());
    }

    /** The `products` property: builds the entries of the owned products, in order. */
    method Products() returns (v: seq<Entry>)
      ensures v == View(items)
    {
      v := [];
      var i := 0;
      while i < |items|
        invariant 0 <= i <= |items|
        invariant v == View(items[..i])
      {
        ViewAppend(items[..i], items[i]);
        assert items[..i + 1] == items[..i] + [items[i]];
        v := v + [EntryOf(items[i])];
        i := i + 1;
      }
      assert items[..i] == items;
    }
  }
}
