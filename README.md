# Retail inventory: Product and Category

A Dafny model of `src/main.py`, a small retail-inventory domain with two
entities.

- **Product** has a name, a description, a price and a quantity. The price is
  private and changes only through a guarded setter. The setter refuses a
  non-number or a price of zero or below. It asks the user to confirm a
  decrease, repeating the question until the answer is `y` or `n` (in either
  case). It applies an equal or higher price at once.
- **`Product.new_product`** validates an incoming record. If it is given a
  list of products, it merges the record into the first product with the same
  name: the quantities are added, the price is raised through the setter when
  the incoming one is higher, and that same object is returned. Otherwise it
  builds a fresh Product.
- **Category** owns a private list of products. `add_product` refuses anything
  that is not a Product with `TypeError`. The `products` property lists the
  owned products in order, from their current fields. Two process-wide
  counters track categories built and products added.

Layout:

- `wrappers.dfy`: `Option` (Python's `None`) and `Result` (a value or a raised exception).
- `confirmation.dfy`: the yes/no exchange of the setter. The console is an
  injected sequence of answers, and `Ask` says how the exchange ends.
- `product.dfy`: `Change`, the setter as a function of the current price, the
  value and the answers. Also the `Product` class with `SetPrice` (the setter's
  loop, proved equal to `Change`), `NewProduct` (the factory, a linear search
  plus an in-place update) and the lemmas about them.
- `category.dfy`: the `Registry` holding the two counters, the `Category`
  class with `Create` (the constructor), `AddProduct` and `Products`, and
  `View`, the specification of the `products` property.
- `scenarios.dfy`: the scenarios of `tests/test_classes.py`, as methods whose
  postconditions are the values those tests read back.

Where a docstring or a test and the code differ, the model follows the code:

- The setter's docstring (src/main.py:17-21) says a price must not be zero or
  below, but neither the `Product` constructor nor `new_product` checks the
  sign. A negative price is truthy, so it passes validation and is stored
  (src/main.py:3-8, 62). Only the setter
  refuses non-positive values. The model therefore proves that a positive price
  *stays* positive (`PositivePriceKept`, `SetPrice`). It does not assume every
  price is positive.
- `src/main.py` defines no inventory-value sum of two products and no one-line
  rendering of a category, so neither is part of this model.
- `test/test_classes.py:44` expects `products` to return the Product objects
  themselves. The code (src/main.py:104-115) and `tests/test_classes.py:50-52`
  return one rendered entry per product, and the model follows them.

## Model

| member | source | states |
|---|---|---|
| `Confirmation.Lower` | src/main.py:33-35 | lowercasing keeps the length and maps each character through the ASCII lowercase map |
| `Confirmation.YesTokens` | src/main.py:33-36 | after lowercasing, an answer equals `y` exactly when it is `y` or `Y` |
| `Confirmation.NoTokens` | src/main.py:33-41 | after lowercasing, an answer equals `n` exactly when it is `n` or `N` |
| `Confirmation.Ask` | src/main.py:32-46 | the exchange ends at the first valid answer: all answers before it are invalid, it is the last one read, and it affirms exactly when it is `y`; the answers run out exactly when none is valid |
| `Confirmation.FirstValidDecides` | src/main.py:32-46 | if the first valid answer is at index k, the exchange reads k+1 answers and is affirmed or declined by that answer |
| `Confirmation.SkipsInvalid` | src/main.py:45-46 | invalid answers placed in front change nothing but the number of answers read |
| `Products.Change` | src/main.py:15-48 | the setter reads no more answers than given and reads any only for a decrease to a positive value; only the two writing branches change the price, and they set it to the positive number given |
| `Products.RejectsInvalidPrice` | src/main.py:22-28 | a non-number or a value of zero or below leaves the price unchanged, writes nothing and reads no answer |
| `Products.RaiseNeedsNoAnswer` | src/main.py:31-48 | a positive value equal to or above the current price is stored exactly, whatever the answers, and reads none |
| `Products.SetTwiceIdempotent` | src/main.py:47-48 | once a value has been written, setting the same value again is applied with no answer and leaves the price at that value |
| `Products.LoweringDecidedByFirstValidAnswer` | src/main.py:31-46 | for a decrease, the price becomes the new value exactly when the first answer that is `y`/`n` in either case is `y`, and otherwise stays; that answer is the last one read |
| `Products.LoweringSkipsInvalid` | src/main.py:32-46 | invalid answers before the deciding one leave the new price and the branch unchanged and only add to the answers read |
| `Products.PositivePriceKept` | src/main.py:26-48 | from a positive price, every call of the setter leaves a positive price |
| `Products.Product.constructor` | src/main.py:3-8 | a new Product reads back the name, description, price and quantity it was built with |
| `Products.Product.SetPrice` | src/main.py:15-48 | the setter's confirmation loop returns the branch, the new price and the number of answers read that `Change` gives for the old price; a positive price stays positive |
| `Products.Validate` | src/main.py:57-63 | a record passes exactly when name, description and price are present and truthy (so `""` and `0` count as missing) and quantity is present (so `0` passes); a failure is `ValueError` |
| `Products.ZeroQuantityAccepted` | src/main.py:62-63 | a quantity of 0 passes validation with the other fields unchanged |
| `Products.FirstNamed` | src/main.py:65-67 | the index found is the first product with the given name; none is found only when no product has that name |
| `Products.MergedPrice` | src/main.py:70-73 | a merge never lowers the price, yields either the old or the incoming price, and from a positive price yields the higher of the two |
| `Products.MergeNeverAsks` | src/main.py:71-73 | the setter call made by a merge reads no answer, so no confirmation is asked |
| `Products.Product.NewProduct` | src/main.py:50-78 | an invalid record gives `ValueError` and changes nothing. On a name match it returns the first matching object itself, adds the incoming quantity, sets the price to `MergedPrice`, and leaves every other listed object unchanged. Otherwise it returns a fresh Product equal to the record and leaves the list unchanged |
| `Categories.Registry.constructor` | src/main.py:82-83 | both counters start at zero, the state the test fixture restores before each test |
| `Categories.View` | src/main.py:104-115 | the view has one entry per product, in order, built from that product's current name, price and quantity |
| `Categories.ViewAppend` | src/main.py:97-115 | appending a product to the list appends its entry at the end of the view |
| `Categories.LeadingProducts` | src/main.py:92-100 | counts the initial values that are Products before the first one that is not |
| `Categories.Category.Empty` | src/main.py:85-89 | a category starts with its name, description and counters, and owns no product |
| `Categories.Category.Create` | src/main.py:85-95 | the initial Products before the first non-Product are counted. If all initial values are Products, the category owns them in order and the category counter rises by one. Otherwise construction raises `TypeError` after counting the Products before the first non-Product, and the category counter is unchanged |
| `Categories.Category.AddProduct` | src/main.py:97-102 | a non-Product raises `TypeError` and leaves the list and the product counter unchanged; a Product is appended at the end, the counter rises by exactly one, and its entry is appended to the view |
| `Categories.Category.Products` | src/main.py:104-115 | the loop builds exactly `View` of the owned list |
| `Scenarios.PriceSetterScenario` | tests/test_classes.py:109-169 | from 100.0: raising to 150.0 applies; 0, -50 and a non-number leave 100.0; lowering to 50.0 applies with `y`, is cancelled with `n`, and applies with `x` then `y` |
| `Scenarios.CounterScenario` | tests/test_classes.py:54-64 | three categories with zero, one and zero products count 3 categories and 1 product |
| `Scenarios.MergeScenario` | tests/test_classes.py:182-199 | merging at 70.0 then at 40.0 returns the listed object both times, with quantity 8 then 10 and price 70.0 both times |
| `Scenarios.MissingDataScenario` | tests/test_classes.py:201-205 | a record without description and quantity gives `ValueError` |
| `Scenarios.ViewScenario` | tests/test_classes.py:38-52 | a category built with two products lists their entries in order |

## Left out

- The demonstration block (src/main.py:118-206) and every `print` diagnostic: they only write to the console. Which branch the setter took is returned as a `PriceOutcome` instead.
- Console input. The answers are a finite sequence given to the setter. When it runs out before a valid answer, Python's `input()` would raise `EOFError`. The model reports that as `InputEnded` and leaves the price unchanged. A user who never answers validly, with unbounded re-prompting, is not modelled.
- `Confirmation.Lower`: only ASCII letters are lowercased, not Python's full Unicode `str.lower()`.
- Floating point. Prices are exact `real` numbers, with no rounding, NaN or infinity. Python's `bool`-is-`int` quirk in the type check (src/main.py:22) is also left out: a non-number is the `NotANumber` alternative.
- The rendered text of the `products` view (`"name, price руб. Остаток: n шт."`) is not modelled. Each entry is the triple (name, price, quantity) it is built from.
- The price getter (src/main.py:10-13) is a plain read of the `price` field. Dafny has no private fields, but only `SetPrice` writes `price` after construction.
- Dynamic typing of the factory record. Name and description are strings, price is a real and quantity is an integer. A list element that is not a Product, and a price comparison between incomparable types, are not modelled.
- The two class-level counters are fields of a `Registry` object that each category holds. Resetting them is modelled by creating a fresh `Registry`.
- `Categories.Category.Create`: `Category.__init__` is a static method returning a `Result`. A Python constructor that raises leaves no reachable object, and a Dafny constructor cannot fail.
