/**
 * `ProductModel` and `DatabaseManager`: the record saved for each product and the `products`
 * table, keyed by its unique `asin` column, that `INSERT OR REPLACE` writes.
 */
module Store {
  import opened Optional

  /** One scraped product, with the fields of `ProductModel`. */
  datatype Product = Product(
    asin: string,
    title: string,
    rank: int,
    price: real,
    currency: string,
    listPrice: Option<real>,
    discountPercent: Option<real>,
    rating: Option<real>,
    reviewsCount: Option<int>,
    isPrime: bool,
    bestSellersRank: Option<string>,
    bulletPoints: string,
    mainImageUrl: Option<string>
  )

  /**
   * `INSERT OR REPLACE` of a product: the table then holds exactly one row for its ASIN, with
   * the product's values, and every other row as it was.
   */
  function Upsert(rows: map<string, Product>, p: Product): (r: map<string, Product>)
    ensures r.Keys == rows.Keys + {p.asin}
    ensures r[p.asin] == p
    ensures forall a :: a in rows && a != p.asin ==> r[a] == rows[a]
  {
    rows[p.asin := p]
  }

  /** Saving the same ASIN twice keeps only the second record. */
  lemma LastSaveWins(rows: map<string, Product>, p: Product, q: Product)
    requires p.asin == q.asin
    ensures Upsert(Upsert(rows, p), q) == Upsert(rows, q)
  {
    assert Upsert(Upsert(rows, p), q).Keys == Upsert(rows, q).Keys;
  }

  /** Saves of different ASINs do not interfere: their order does not matter. */
  lemma SavesCommute(rows: map<string, Product>, p: Product, q: Product)
    requires p.asin != q.asin
    ensures Upsert(Upsert(rows, p), q) == Upsert(Upsert(rows, q), p)
  {
    assert Upsert(Upsert(rows, p), q).Keys == Upsert(Upsert(rows, q), p).Keys;
  }

  /** The table after saving `products` one after the other. */
  function SaveAll(rows: map<string, Product>, products: seq<Product>): (r: map<string, Product>)
    ensures rows.Keys <= r.Keys
    decreases |products|
  {
    if products == [] then rows
    else Upsert(SaveAll(rows, products[..|products| - 1]), products[|products| - 1])
  }

  /** Saving one batch after another is saving them together. */
  lemma {:induction false} SaveAllAppend(rows: map<string, Product>, first: seq<Product>, more: seq<Product>)
    ensures SaveAll(SaveAll(rows, first), more) == SaveAll(rows, first + more)
    decreases |more|
  {
    if more != [] {
      var init := more[..|more| - 1];
      SaveAllAppend(rows, first, init);
      assert (first + more)[..|first + more| - 1] == first + init;
    } else {
      assert first + more == first;
    }
  }

  /** Distinct ASINs: no product overwrites another of the same batch. */
  predicate DistinctAsins(products: seq<Product>) {
    forall i, j :: 0 <= i < j < |products| ==> products[i].asin != products[j].asin
  }

  /** Whether some product of the batch has ASIN `a`. */
  predicate HasAsin(products: seq<Product>, a: string) {
    exists k :: 0 <= k < |products| && products[k].asin == a
  }

  /**
   * After saving products with distinct ASINs, the table holds each of them as saved, the
   * ASINs it held before, and nothing else; rows of other ASINs are untouched.
   */
  lemma SaveAllKeeps(rows: map<string, Product>, products: seq<Product>)
    requires DistinctAsins(products)
    ensures forall k :: 0 <= k < |products| ==>
      products[k].asin in SaveAll(rows, products) && SaveAll(rows, products)[products[k].asin] == products[k]
    ensures forall a :: a in SaveAll(rows, products) <==> a in rows || HasAsin(products, a)
    ensures forall a :: a in rows && !HasAsin(products, a) ==> SaveAll(rows, products)[a] == rows[a]
  {
    SaveAllStores(rows, products);
    SaveAllKeys(rows, products);
    SaveAllOthers(rows, products);
  }

  /** Each product of a batch with distinct ASINs is in the table as saved. */
  lemma {:induction false} SaveAllStores(rows: map<string, Product>, products: seq<Product>)
    requires DistinctAsins(products)
    ensures forall k :: 0 <= k < |products| ==>
      products[k].asin in SaveAll(rows, products) && SaveAll(rows, products)[products[k].asin] == products[k]
    decreases |products|
  {
    if products != [] {
      var init := products[..|products| - 1];
      var last := products[|products| - 1];
      SaveAllStores(rows, init);
      assert SaveAll(rows, products) == Upsert(SaveAll(rows, init), last);
      forall k | 0 <= k < |init|
        ensures init[k].asin != last.asin
      {
        assert products[k] == init[k];
      }
    }
  }

  /** The table holds the ASINs it held before and those of the batch, and no others. */
  lemma {:induction false} SaveAllKeys(rows: map<string, Product>, products: seq<Product>)
    ensures forall a :: a in SaveAll(rows, products) <==> a in rows || HasAsin(products, a)
    decreases |products|
  {
    if products != [] {
      var init := products[..|products| - 1];
      SaveAllKeys(rows, init);
      HasAsinSnoc(products);
      assert SaveAll(rows, products) == Upsert(SaveAll(rows, init), products[|products| - 1]);
    }
  }

  /** Rows of ASINs outside the batch are left as they were. */
  lemma {:induction false} SaveAllOthers(rows: map<string, Product>, products: seq<Product>)
    ensures forall a :: a in rows && !HasAsin(products, a) ==> SaveAll(rows, products)[a] == rows[a]
    decreases |products|
  {
    if products != [] {
      var init := products[..|products| - 1];
      SaveAllOthers(rows, init);
      HasAsinSnoc(products);
      assert SaveAll(rows, products) == Upsert(SaveAll(rows, init), products[|products| - 1]);
    }
  }

  /** A product of a non-empty batch comes from its earlier products or is its last. */
  lemma HasAsinSnoc(products: seq<Product>)
    requires products != []
    ensures forall a :: HasAsin(products, a) <==>
      HasAsin(products[..|products| - 1], a) || a == products[|products| - 1].asin
  {
    var init := products[..|products| - 1];
    forall a ensures HasAsin(products, a) <==> HasAsin(init, a) || a == products[|products| - 1].asin {
      if HasAsin(products, a) {
        var k :| 0 <= k < |products| && products[k].asin == a;
        if k < |init| { assert init[k].asin == a; }
      }
      if HasAsin(init, a) {
        var k :| 0 <= k < |init| && init[k].asin == a;
        assert products[k].asin == a;
      }
    }
  }

  /**
   * The products of a batch whose writes succeed, in order: a write that raises is logged and
   * dropped, so saving a batch one product at a time stores exactly these.
   */
  function Accepted(products: seq<Product>, accepts: Product -> bool): (r: seq<Product>)
    ensures |r| <= |products|
    decreases |products|
  {
    if products == [] then []
    else
      var last := products[|products| - 1];
      Accepted(products[..|products| - 1], accepts) + (if accepts(last) then [last] else [])
  }

  /** The accepted products are those of the batch whose writes succeed. */
  lemma {:induction false} AcceptedMembers(products: seq<Product>, accepts: Product -> bool)
    ensures forall p :: p in Accepted(products, accepts) <==> p in products && accepts(p)
    decreases |products|
  {
    if products != [] {
      var init := products[..|products| - 1];
      AcceptedMembers(init, accepts);
      assert products == init + [products[|products| - 1]];
    }
  }

  /** Dropping failed writes keeps the ASINs of a batch distinct. */
  lemma {:induction false} AcceptedDistinct(products: seq<Product>, accepts: Product -> bool)
    requires DistinctAsins(products)
    ensures DistinctAsins(Accepted(products, accepts))
    decreases |products|
  {
    if products != [] {
      var init := products[..|products| - 1];
      var last := products[|products| - 1];
      AcceptedDistinct(init, accepts);
      AcceptedMembers(init, accepts);
      var kept := Accepted(init, accepts);
      forall k | 0 <= k < |kept|
        ensures kept[k].asin != last.asin
      {
        assert kept[k] in init;
        var j :| 0 <= j < |init| && init[j] == kept[k];
        assert products[j] == init[j];
      }
    }
  }

  /** Writing one batch after another accepts the products of both, in order. */
  lemma {:induction false} AcceptedAppend(first: seq<Product>, more: seq<Product>, accepts: Product -> bool)
    ensures Accepted(first + more, accepts) == Accepted(first, accepts) + Accepted(more, accepts)
    decreases |more|
  {
    if more != [] {
      var init := more[..|more| - 1];
      AcceptedAppend(first, init, accepts);
      assert (first + more)[..|first + more| - 1] == first + init;
    } else {
      assert first + more == first;
    }
  }

  /** When every write succeeds, every product of the batch is stored. */
  lemma {:induction false} AcceptedAll(products: seq<Product>, accepts: Product -> bool)
    requires forall k :: 0 <= k < |products| ==> accepts(products[k])
    ensures Accepted(products, accepts) == products
    decreases |products|
  {
    if products != [] {
      AcceptedAll(products[..|products| - 1], accepts);
    }
  }

  /**
   * Saving a batch with distinct ASINs, some of whose writes fail: each product whose write
   * succeeds is stored as it is, no ASIN outside the table and the batch appears, and rows of
   * ASINs outside the batch are untouched.
   */
  lemma SaveAcceptedKeeps(rows: map<string, Product>, products: seq<Product>, accepts: Product -> bool)
    requires DistinctAsins(products)
    ensures var r := SaveAll(rows, Accepted(products, accepts));
      && (forall k :: 0 <= k < |products| && accepts(products[k]) ==>
            products[k].asin in r && r[products[k].asin] == products[k])
      && (forall a :: a in r ==> a in rows || HasAsin(products, a))
      && (forall a :: a in rows && !HasAsin(products, a) ==> r[a] == rows[a])
  {
    var kept := Accepted(products, accepts);
    AcceptedDistinct(products, accepts);
    AcceptedMembers(products, accepts);
    SaveAllKeeps(rows, kept);
    forall k | 0 <= k < |products| && accepts(products[k])
      ensures HasAsin(kept, products[k].asin)
    {
      assert products[k] in kept;
    }
    forall a | HasAsin(kept, a)
      ensures HasAsin(products, a)
    {
      var j :| 0 <= j < |kept| && kept[j].asin == a;
      assert kept[j] in products;
    }
  }

  /**
   * `DatabaseManager`: the rows of the `products` table, and which writes succeed (`accepts`;
   * a write that fails raises inside `save_product`).
   */
  class DatabaseManager {
    var rows: map<string, Product>
    const accepts: Product -> bool

    /**
     * `__init__` and `init_database`: `CREATE TABLE IF NOT EXISTS` keeps the rows of a table
     * that already exists (`stored`) and otherwise starts with none.
     */
    constructor (stored: Option<map<string, Product>>, accepts: Product -> bool)
      ensures rows == stored.GetOr(map[]) && this.accepts == accepts
    {
      rows := stored.GetOr(map[]);
      this.accepts := accepts;
    }

    /** `init_database` on an existing manager: creating the table again changes nothing. */
    method InitDatabase()
      modifies this
      ensures rows == old(rows)
    {
    }

    /** `save_product`: the upsert when the write succeeds; otherwise the error is swallowed. */
    method SaveProduct(p: Product)
      modifies this
      ensures rows == if accepts(p) then Upsert(old(rows), p) else old(rows)
    {
      if accepts(p) {
        rows := rows[p.asin := p];
      }
    }
  }
}
