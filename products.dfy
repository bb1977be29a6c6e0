/** The local product repository, its "P-0001" code generator and its category list. */
module Products {
  import opened Wrappers
  import opened Collections
  import Codes

  /** A stocked product; prices are in cents, instants are integers. */
  datatype Product = Product(
    id: string,
    productId: string,
    title: string,
    description: Option<string>,
    category: string,
    quantity: int,
    lowStockLimit: int,
    sellingUnitPrice: int,
    buyingUnitPrice: int,
    createdAt: int,
    updatedAt: int)

  /**
   * The fields handed to addProduct. The product form passes the record the
   * remote store echoed, so `id` and `productId` may come along; both are
   * spread after the generated values and win.
   */
  datatype ProductInput = ProductInput(
    id: Option<string>,
    productId: Option<string>,
    title: string,
    description: Option<string>,
    category: string,
    quantity: int,
    lowStockLimit: int,
    sellingUnitPrice: int,
    buyingUnitPrice: int)

  /**
   * A partial product for updateProduct: `None` is a property the patch does
   * not carry; for the optional `description`, `Some(None)` is a property
   * present with value undefined.
   */
  datatype ProductPatch = ProductPatch(
    id: string,
    productId: Option<string>,
    title: Option<string>,
    description: Option<Option<string>>,
    category: Option<string>,
    quantity: Option<int>,
    lowStockLimit: Option<int>,
    sellingUnitPrice: Option<int>,
    buyingUnitPrice: Option<int>,
    createdAt: Option<int>)

  const ProductCodePrefix: string := "P-"

  /** `P-` followed by `n` padded with zeros to at least four digits. */
  function ProductCode(n: nat): string {
    Codes.Code(ProductCodePrefix, n)
  }

  /**
   * The product code with number `n` is "P-" followed by its digits, which
   * read back as `n`; below 10000 they are zero-padded to exactly four.
   */
  lemma ProductCodeShape(n: nat)
    ensures ProductCode(n)[..2] == "P-" && Codes.AllDigits(ProductCode(n)[2..])
    ensures n < 10000 <==> |ProductCode(n)| == 6
    ensures Codes.ParseCode(ProductCodePrefix, ProductCode(n)) == Some(n)
  {
    Codes.FourDigitsBelow10000(n);
    Codes.ParseCodeOfCode(ProductCodePrefix, n);
  }

  function IdIs(id: string): Product -> bool {
    (p: Product) => p.id == id
  }

  function IdIsNot(id: string): Product -> bool {
    (p: Product) => p.id != id
  }

  function HasProductId(code: string): Product -> bool {
    (p: Product) => p.productId == code
  }

  function ProductIdOf(p: Product): string {
    p.productId
  }

  /** Some product already carries `code` as its productId. */
  predicate CodeInUse(products: seq<Product>, code: string)
    ensures CodeInUse(products, code) <==> Any(products, HasProductId(code))
  {
    exists i :: 0 <= i < |products| && products[i].productId == code
  }

  /** Every code number from `lo` up to (not including) `hi` is carried by some product. */
  /** Every code from `lo` up to (not including) `hi` is in use. */
  predicate AllTaken(products: seq<Product>, lo: nat, hi: nat) {
    forall k :: lo <= k < hi ==> CodeInUse(products, ProductCode(k))
  }

  /** A taken code right after a taken range extends the range. */
  lemma AllTakenExtends(products: seq<Product>, lo: nat, hi: nat)
    requires lo <= hi && AllTaken(products, lo, hi) && CodeInUse(products, ProductCode(hi))
    ensures AllTaken(products, lo, hi + 1)
  {
    forall k | lo <= k < hi + 1 ensures CodeInUse(products, ProductCode(k)) {
      if k < hi {
        assert CodeInUse(products, ProductCode(k));
      }
    }
  }

  /**
   * `n` is the number generateProductId settles on: the first number from
   * |products| + 1 on whose code no product carries.
   */
  ghost predicate LeastFreeNumber(products: seq<Product>, n: nat) {
    && |products| + 1 <= n
    && !CodeInUse(products, ProductCode(n))
    && AllTaken(products, |products| + 1, n)
  }

  predicate HasProduct(products: seq<Product>, id: string) {
    exists i :: 0 <= i < |products| && products[i].id == id
  }

  /** No two products share a productId. */
  predicate UniqueCodes(products: seq<Product>) {
    forall i, j :: 0 <= i < j < |products| ==> products[i].productId != products[j].productId
  }

  /** getProduct: the first product with the id, if any. */
  function GetProduct(products: seq<Product>, id: string): (r: Option<Product>)
    ensures r.None? <==> !HasProduct(products, id)
    ensures r.Some? ==> exists i :: 0 <= i < |products| && products[i] == r.value && r.value.id == id &&
                                    forall j :: 0 <= j < i ==> products[j].id != id
  {
    Find(products, IdIs(id))
  }

  /** The categories of the products, in stored order. */
  function Categories(products: seq<Product>): (r: seq<string>)
    ensures |r| == |products| && forall i :: 0 <= i < |r| ==> r[i] == products[i].category
  {
    Map(products, CategoryOf)
  }

  /** The callback of the category `map`. */
  function CategoryOf(p: Product): string {
    p.category
  }

  /**
   * getProductCategories: each category once, in order of first appearance.
   * The three ensures together determine the result.
   */
  function GetProductCategories(products: seq<Product>): (r: seq<string>)
    ensures NoDuplicates(r)
    ensures forall c :: c in r <==> exists i :: 0 <= i < |products| && products[i].category == c
    ensures forall i :: 0 <= i < |r| ==> r[i] in Categories(products)
    ensures InFirstOccurrenceOrder(r, Categories(products))
  {
    var all := Categories(products);
    var r := Distinct(all);
    assert forall c :: c in r ==> c in all;
    r
  }

  /** The record updateProduct stores: the patch spread over the old record. */
  function MergeProduct(p: Product, patch: ProductPatch, now: int): (r: Product)
    ensures r.id == patch.id && r.updatedAt == now
    ensures patch.productId.Some? ==> r.productId == patch.productId.value
    ensures patch.productId.None? ==> r.productId == p.productId
    ensures patch.title.Some? ==> r.title == patch.title.value
    ensures patch.title.None? ==> r.title == p.title
    ensures patch.description.Some? ==> r.description == patch.description.value
    ensures patch.description.None? ==> r.description == p.description
    ensures patch.category.Some? ==> r.category == patch.category.value
    ensures patch.category.None? ==> r.category == p.category
    ensures patch.quantity.Some? ==> r.quantity == patch.quantity.value
    ensures patch.quantity.None? ==> r.quantity == p.quantity
    ensures patch.lowStockLimit.Some? ==> r.lowStockLimit == patch.lowStockLimit.value
    ensures patch.lowStockLimit.None? ==> r.lowStockLimit == p.lowStockLimit
    ensures patch.sellingUnitPrice.Some? ==> r.sellingUnitPrice == patch.sellingUnitPrice.value
    ensures patch.sellingUnitPrice.None? ==> r.sellingUnitPrice == p.sellingUnitPrice
    ensures patch.buyingUnitPrice.Some? ==> r.buyingUnitPrice == patch.buyingUnitPrice.value
    ensures patch.buyingUnitPrice.None? ==> r.buyingUnitPrice == p.buyingUnitPrice
    ensures patch.createdAt.Some? ==> r.createdAt == patch.createdAt.value
    ensures patch.createdAt.None? ==> r.createdAt == p.createdAt
  {
    Product(
      patch.id,
      patch.productId.GetOr(p.productId),
      patch.title.GetOr(p.title),
      patch.description.GetOr(p.description),
      patch.category.GetOr(p.category),
      patch.quantity.GetOr(p.quantity),
      patch.lowStockLimit.GetOr(p.lowStockLimit),
      patch.sellingUnitPrice.GetOr(p.sellingUnitPrice),
      patch.buyingUnitPrice.GetOr(p.buyingUnitPrice),
      patch.createdAt.GetOr(p.createdAt),
      now)
  }

  /** A patch that carries only the record's own id refreshes updatedAt and nothing else. */
  lemma IdOnlyPatchRefreshes(p: Product, now: int)
    ensures MergeProduct(p, ProductPatch(p.id, None, None, None, None, None, None, None, None, None), now) ==
            p.(updatedAt := now)
  {
  }

  /** Applying the same patch again at the same instant changes nothing more. */
  lemma MergeProductIsIdempotent(p: Product, patch: ProductPatch, now: int)
    ensures MergeProduct(MergeProduct(p, patch, now), patch, now) == MergeProduct(p, patch, now)
  {
  }

  /** If every code from `start` up to `hi` is taken, there are at most |products| of them. */
  lemma TakenCodesBound(products: seq<Product>, start: nat, hi: nat, used: set<string>)
    requires start <= hi
    requires forall i :: 0 <= i < |products| ==> products[i].productId in used
    requires AllTaken(products, start, hi)
    ensures hi - start <= |used|
  {
    forall k | start <= k < hi ensures Codes.Code(ProductCodePrefix, k) in used {
      assert CodeInUse(products, ProductCode(k));
      var i :| 0 <= i < |products| && products[i].productId == ProductCode(k);
    }
    Codes.CodeRangeBound(ProductCodePrefix, start, hi, used);
  }

  /** The product collection of the local store. */
  class ProductStore {
    var products: seq<Product>

    constructor ()
      ensures products == []
    {
      products := [];
    }

    /**
     * generateProductId: starts at |products| + 1 and steps past every number
     * whose code is taken. At most |products| codes can be taken, so the scan
     * takes at most |products| steps.
     */
    method GenerateProductId() returns (code: string, ghost number: nat)
      ensures code == ProductCode(number)
      ensures !CodeInUse(products, code)
      ensures LeastFreeNumber(products, number)
      ensures number <= 2 * |products| + 1
    {
      ghost var used := Image(products, ProductIdOf);
      assert forall i :: 0 <= i < |products| ==> ProductIdOf(products[i]) == products[i].productId;
      ghost var start := |products| + 1;
      var n := |products| + 1;
      while CodeInUse(products, ProductCode(n))
        invariant start <= n
        invariant AllTaken(products, start, n)
        invariant n - start <= |used|
        decreases |used| - (n - start)
      {
        TakenCodesBound(products, start, n + 1, used);
        n := n + 1;
      }
      code, number := ProductCode(n), n;
    }

    /**
     * addProduct: appends the new record and returns it. The generated code
     * is computed from the collection before the append.
     */
    method AddProduct(input: ProductInput, freshId: string, now: int) returns (p: Product)
      modifies this
      ensures products == old(products) + [p]
      ensures p.id == input.id.GetOr(freshId)
      ensures input.productId.Some? ==> p.productId == input.productId.value
      ensures input.productId.None? ==>
                exists n :: LeastFreeNumber(old(products), n) && p.productId == ProductCode(n)
      ensures p.title == input.title && p.description == input.description
      ensures p.category == input.category && p.quantity == input.quantity
      ensures p.lowStockLimit == input.lowStockLimit
      ensures p.sellingUnitPrice == input.sellingUnitPrice && p.buyingUnitPrice == input.buyingUnitPrice
      ensures p.createdAt == now && p.updatedAt == now
      ensures input.productId.None? && UniqueCodes(old(products)) ==> UniqueCodes(products)
    {
      var generated;
      ghost var n;
      generated, n := GenerateProductId();
      p := Product(input.id.GetOr(freshId), input.productId.GetOr(generated), input.title,
                   input.description, input.category, input.quantity, input.lowStockLimit,
                   input.sellingUnitPrice, input.buyingUnitPrice, now, now);
      ghost var before := products;
      products := products + [p];
      if input.productId.None? && UniqueCodes(before) {
        forall i, j | 0 <= i < j < |products| ensures products[i].productId != products[j].productId {
          if j == |before| {
            assert products[i] == before[i];
          } else {
            assert products[i] == before[i] && products[j] == before[j];
          }
        }
      }
    }

    /** updateProduct: merges the patch into the first product with its id; an unknown id changes nothing. */
    method UpdateProduct(patch: ProductPatch, now: int) returns (r: Option<Product>)
      modifies this
      ensures !HasProduct(old(products), patch.id) ==> r.None? && products == old(products)
      ensures HasProduct(old(products), patch.id) ==>
                var i := FirstIndex(old(products), IdIs(patch.id)).value;
                r == Some(MergeProduct(old(products)[i], patch, now)) &&
                products == old(products)[i := r.value]
      ensures r.Some? ==> r.value.id == patch.id && r.value.updatedAt == now
    {
      var index := FirstIndex(products, IdIs(patch.id));
      if index.None? {
        return None;
      }
      var updated := MergeProduct(products[index.value], patch, now);
      products := products[index.value := updated];
      r := Some(updated);
    }

    /** deleteProduct: removes every product with the id; nothing else is touched. */
    method DeleteProduct(id: string) returns (removed: bool)
      modifies this
      ensures removed <==> HasProduct(old(products), id)
      ensures !removed ==> products == old(products)
      ensures removed ==> products == Filter(old(products), IdIsNot(id))
    {
      var remaining := Filter(products, IdIsNot(id));
      FilterKeepsLength(products, IdIsNot(id));
      if |products| == |remaining| {
        return false;
      }
      products := remaining;
      removed := true;
    }
  }
}
