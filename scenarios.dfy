/**
 * The scenarios of tests/test_classes.py, restated over the model: each
 * method builds its own objects (a fresh Registry is the reset the test
 * fixture performs) and its postconditions state what the test reads back.
 */
module Scenarios {
  import opened Wrappers
  import opened Products
  import opened Categories

  /** Raising, refusing and lowering a price of 100.0 with scripted answers. */
  method PriceSetterScenario() returns (raised: real, refused: real, confirmed: real, cancelled: real, retried: real)
    ensures raised == 150.0
    ensures refused == 100.0
    ensures confirmed == 50.0 && cancelled == 100.0 && retried == 50.0
  {
    var p := new Product("Test", "D", 100.0, 5);
    var _, _ := p.SetPrice(Number(150.0), []);
    raised := p.price;

    var q := new Product("Test", "D", 100.0, 5);
    var _, _ := q.SetPrice(Number(0.0), []);
    var _, _ := q.SetPrice(Number(-50.0), []);
    var _, _ := q.SetPrice(NotANumber, []);
    refused := q.price;

    var a := new Product("Test", "D", 100.0, 5);
    var _, _ := a.SetPrice(Number(50.0), ["y"]);
    confirmed := a.price;

    var b := new Product("Test", "D", 100.0, 5);
    var _, _ := b.SetPrice(Number(50.0), ["n"]);
    cancelled := b.price;

    var c := new Product("Test", "D", 100.0, 5);
    var _, _ := c.SetPrice(Number(50.0), ["x", "y"]);
    retried := c.price;
  }

  /** Three categories holding zero, one and zero products. */
  method CounterScenario() returns (categories: int, products: int)
    ensures categories == 3 && products == 1
  {
    var registry := new Registry();
    var item := new Product("P", "D", 1.0, 1);
    var _ := Category.Create(registry, "A", "DA", []);
    var _ := Category.Create(registry, "B", "DB", [AProduct(item)]);
    var _ := Category.Create(registry, "C", "DC", []);
    categories, products := registry.categoryCount, registry.productCount;
  }

  /**
   * Merging twice into a listed product of price 50.0 and quantity 5: first
   * at a higher price, then at a lower one.
   */
  method MergeScenario() returns (same: bool, quantity1: int, price1: real, quantity2: int, price2: real)
    ensures same
    ensures quantity1 == 8 && price1 == 70.0
    ensures quantity2 == 10 && price2 == 70.0
  {
    var existing := new Product("Existing", "Old", 50.0, 5);
    var first := Product.NewProduct(ProductData(Some("Existing"), Some("New"), Some(70.0), Some(3)), Some([existing]));
    quantity1, price1 := existing.quantity, existing.price;
    var second := Product.NewProduct(ProductData(Some("Existing"), Some("New"), Some(40.0), Some(2)), Some([existing]));
    quantity2, price2 := existing.quantity, existing.price;
    same := first == Success(existing) && second == Success(existing);
  }

  /** A record without description and quantity is refused with ValueError. */
  method MissingDataScenario() returns (r: Result<Product, Error>)
    ensures r == Failure(ValueError)
  {
    r := Product.NewProduct(ProductData(Some("Partial"), None, Some(100.0), None), None);
  }

  /** Two products given at construction are listed in order, from their fields. */
  method ViewScenario() returns (entries: seq<Entry>)
    ensures entries == [Entry("T1", 10.0, 1), Entry("T2", 20.0, 2)]
  {
    var registry := new Registry();
    var p1 := new Product("T1", "D1", 10.0, 1);
    var p2 := new Product("T2", "D2", 20.0, 2);
    var created := Category.Create(registry, "Cat", "Desc", [AProduct(p1), AProduct(p2)]);
    var c := created.value;
    entries := c.Products();
  }
}
