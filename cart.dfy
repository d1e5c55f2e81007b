/** The client-side cart: a list of books with a quantity each, keyed by book
    id. Every operation builds a new list from the old one. */
module Cart {
  import opened BookSchema

  /** A cart line: the book as it was when first added, its id, and the
      quantity. The price shown and summed is the book's. */
  datatype Item = Item(id: BookId, book: Book, quantity: int)

  predicate HasId(cart: seq<Item>, id: BookId)
  {
    exists i :: 0 <= i < |cart| && cart[i].id == id
  }

  /** No two lines share an id. */
  predicate UniqueIds(cart: seq<Item>)
  {
    forall i, j :: 0 <= i < j < |cart| ==> cart[i].id != cart[j].id
  }

  /** Every line with `id` gets `q` more copies; the others stay as they are. */
  function Bump(cart: seq<Item>, id: BookId, q: int): (r: seq<Item>)
  {
    seq(|cart|, i requires 0 <= i < |cart| =>
      if cart[i].id == id then cart[i].(quantity := cart[i].quantity + q) else cart[i])
  }

  /** `addToCart`: a book already in the cart has its quantity raised by `q`
      (the stored book is not refreshed); a new book is appended with
      quantity `q`. */
  function AddToCart(cart: seq<Item>, id: BookId, book: Book, q: int): (r: seq<Item>)
    ensures HasId(cart, id) ==> |r| == |cart| && forall i :: 0 <= i < |cart| ==>
              r[i] == (if cart[i].id == id then cart[i].(quantity := cart[i].quantity + q) else cart[i])
    ensures !HasId(cart, id) ==> r == cart + [Item(id, book, q)]
  {
    if HasId(cart, id) then Bump(cart, id, q) else cart + [Item(id, book, q)]
  }

  /** `removeFromCart`: the lines with another id, in their order. */
  function RemoveFromCart(cart: seq<Item>, id: BookId): (r: seq<Item>)
    ensures |r| <= |cart|
    ensures !HasId(r, id)
    ensures forall x :: x in r <==> x in cart && x.id != id
  {
    if cart == [] then []
    else
      var rest := RemoveFromCart(cart[..|cart| - 1], id);
      var last := cart[|cart| - 1];
      rest + (if last.id == id then [] else [last])
  }

  /** Removal works line by line: it distributes over concatenation, so the
      kept lines stay in their original order. */
  lemma {:induction false} RemoveAppend(a: seq<Item>, b: seq<Item>, id: BookId)
    ensures RemoveFromCart(a + b, id) == RemoveFromCart(a, id) + RemoveFromCart(b, id)
  {
    if b == [] {
      assert a + b == a;
    } else {
      var n := |b| - 1;
      assert (a + b)[..|a + b| - 1] == a + b[..n];
      RemoveAppend(a, b[..n], id);
    }
  }

  /** Removing an id that is not in the cart changes nothing. */
  lemma {:induction false} RemoveAbsent(cart: seq<Item>, id: BookId)
    requires !HasId(cart, id)
    ensures RemoveFromCart(cart, id) == cart
  {
    if cart != [] {
      var init := cart[..|cart| - 1];
      RemoveAbsent(init, id);
      assert cart[|cart| - 1].id != id;
      assert init + [cart[|cart| - 1]] == cart;
    }
  }

  /** `updateQuantity`: a quantity of zero or less removes the book;
      otherwise every line with that id gets the new quantity and nothing
      else changes. */
  function UpdateQuantity(cart: seq<Item>, id: BookId, q: int): (r: seq<Item>)
    ensures q <= 0 ==> r == RemoveFromCart(cart, id)
    ensures q > 0 ==> |r| == |cart| && forall i :: 0 <= i < |cart| ==>
              r[i] == (if cart[i].id == id then cart[i].(quantity := q) else cart[i])
  {
    if q <= 0 then RemoveFromCart(cart, id)
    else seq(|cart|, i requires 0 <= i < |cart| =>
           if cart[i].id == id then cart[i].(quantity := q) else cart[i])
  }

  /** `clearCart`. */
  function ClearCart(cart: seq<Item>): (r: seq<Item>)
    ensures r == [] && CartCount(r) == 0 && CartTotal(r) == 0
  {
    []
  }

  /** `getCartTotal`: the sum of price times quantity, folded from the left. */
  function CartTotal(cart: seq<Item>): int
  {
    if cart == [] then 0
    else CartTotal(cart[..|cart| - 1]) + cart[|cart| - 1].book.price * cart[|cart| - 1].quantity
  }

  /** `getCartCount`: the sum of the quantities, folded from the left. */
  function CartCount(cart: seq<Item>): int
  {
    if cart == [] then 0 else CartCount(cart[..|cart| - 1]) + cart[|cart| - 1].quantity
  }

  /** With prices and quantities that are not negative, the total is not
      negative, and when every line holds at least one copy the count is at
      least the number of lines. */
  lemma {:induction false} SumsBounded(cart: seq<Item>)
    ensures (forall i :: 0 <= i < |cart| ==> cart[i].book.price >= 0 && cart[i].quantity >= 0) ==> CartTotal(cart) >= 0
    ensures (forall i :: 0 <= i < |cart| ==> cart[i].quantity >= 1) ==> CartCount(cart) >= |cart|
  {
    if cart != [] {
      var n := |cart| - 1;
      SumsBounded(cart[..n]);
      assert forall i :: 0 <= i < n ==> cart[..n][i] == cart[i];
    }
  }

  lemma {:induction false} CountAppend(a: seq<Item>, b: seq<Item>)
    ensures CartCount(a + b) == CartCount(a) + CartCount(b)
    ensures CartTotal(a + b) == CartTotal(a) + CartTotal(b)
  {
    if b == [] {
      assert a + b == a;
    } else {
      var n := |b| - 1;
      assert (a + b)[..|a + b| - 1] == a + b[..n];
      CountAppend(a, b[..n]);
    }
  }

  /** Quantity held under `id`. */
  function QuantityOf(cart: seq<Item>, id: BookId): int
  {
    if cart == [] then 0
    else QuantityOf(cart[..|cart| - 1], id) + (if cart[|cart| - 1].id == id then cart[|cart| - 1].quantity else 0)
  }

  /** Number of lines with `id`. */
  function Lines(cart: seq<Item>, id: BookId): nat
  {
    if cart == [] then 0
    else Lines(cart[..|cart| - 1], id) + (if cart[|cart| - 1].id == id then 1 else 0)
  }

  lemma {:induction false} LinesOfUnique(cart: seq<Item>, id: BookId)
    requires UniqueIds(cart)
    ensures Lines(cart, id) == (if HasId(cart, id) then 1 else 0)
  {
    if cart != [] {
      var init := cart[..|cart| - 1];
      var last := cart[|cart| - 1];
      LinesOfUnique(init, id);
      if HasId(init, id) {
        var i :| 0 <= i < |init| && init[i].id == id;
        assert cart[i].id == id;
      }
      if HasId(cart, id) && last.id != id {
        var i :| 0 <= i < |cart| && cart[i].id == id;
        assert init[i].id == id;
      }
    }
  }

  /** Bumping raises the count by `q` once per line with that id, and leaves
      the quantity of every other id alone. */
  lemma {:induction false} BumpCount(cart: seq<Item>, id: BookId, q: int)
    ensures CartCount(Bump(cart, id, q)) == CartCount(cart) + q * Lines(cart, id)
  {
    if cart != [] {
      var n := |cart| - 1;
      BumpCount(cart[..n], id, q);
      assert Bump(cart, id, q)[..n] == Bump(cart[..n], id, q);
    }
  }

  /** On a cart without duplicate ids, adding `q` copies of a book raises the
      item count by exactly `q`, whether the book was there or not. */
  lemma AddRaisesCount(cart: seq<Item>, id: BookId, book: Book, q: int)
    requires UniqueIds(cart)
    ensures CartCount(AddToCart(cart, id, book, q)) == CartCount(cart) + q
  {
    if HasId(cart, id) {
      BumpCount(cart, id, q);
      LinesOfUnique(cart, id);
    } else {
      CountAppend(cart, [Item(id, book, q)]);
      assert [Item(id, book, q)][..0] == [];
    }
  }

  /** Adding a new book raises the total by its price times `q`. */
  lemma AddNewRaisesTotal(cart: seq<Item>, id: BookId, book: Book, q: int)
    requires !HasId(cart, id)
    ensures CartTotal(AddToCart(cart, id, book, q)) == CartTotal(cart) + book.price * q
  {
    CountAppend(cart, [Item(id, book, q)]);
    assert [Item(id, book, q)][..0] == [];
  }

  /** Adding keeps ids unique, and the ids in the cart afterwards are the
      old ones plus the added one. */
  lemma AddKeepsIdsUnique(cart: seq<Item>, id: BookId, book: Book, q: int)
    requires UniqueIds(cart)
    ensures UniqueIds(AddToCart(cart, id, book, q))
    ensures forall k :: HasId(AddToCart(cart, id, book, q), k) <==> HasId(cart, k) || k == id
  {
    var r := AddToCart(cart, id, book, q);
    forall k
      ensures HasId(r, k) <==> HasId(cart, k) || k == id
    {
      if HasId(cart, k) {
        var i :| 0 <= i < |cart| && cart[i].id == k;
        assert r[i].id == k;
      }
      if HasId(r, k) {
        var i :| 0 <= i < |r| && r[i].id == k;
        if i < |cart| {
          assert cart[i].id == k;
        }
      }
      if k == id && !HasId(cart, k) {
        assert r[|cart|].id == k;
      }
    }
  }

  /** Removing and updating keep ids unique. */
  lemma RemoveUpdateKeepIdsUnique(cart: seq<Item>, id: BookId, q: int)
    requires UniqueIds(cart)
    ensures UniqueIds(UpdateQuantity(cart, id, q))
    ensures UniqueIds(RemoveFromCart(cart, id))
  {
    RemoveKeepsIdsUnique(cart, id);
  }

  lemma {:induction false} RemoveKeepsIdsUnique(cart: seq<Item>, id: BookId)
    requires UniqueIds(cart)
    ensures UniqueIds(RemoveFromCart(cart, id))
  {
    if cart != [] {
      var init := cart[..|cart| - 1];
      var last := cart[|cart| - 1];
      RemoveKeepsIdsUnique(init, id);
      var rest := RemoveFromCart(init, id);
      if last.id != id {
        forall x | x in rest
          ensures x.id != last.id
        {
          var i :| 0 <= i < |init| && init[i] == x;
          assert cart[i] == x;
        }
        var r := rest + [last];
        forall i, j | 0 <= i < j < |r|
          ensures r[i].id != r[j].id
        {
          if j == |rest| {
            assert r[i] in rest;
          }
        }
      }
    }
  }

  /** Removing an id takes exactly its quantity out of the count. */
  lemma {:induction false} RemoveCount(cart: seq<Item>, id: BookId)
    ensures CartCount(RemoveFromCart(cart, id)) == CartCount(cart) - QuantityOf(cart, id)
  {
    if cart != [] {
      var n := |cart| - 1;
      RemoveCount(cart[..n], id);
      var last := cart[n];
      CountAppend(RemoveFromCart(cart[..n], id), if last.id == id then [] else [last]);
      assert [last][..0] == [];
    }
  }

  /** Setting a positive quantity replaces what the id held by `q` per line
      with that id; a non-positive one drops what the id held. */
  lemma {:induction false} UpdateCount(cart: seq<Item>, id: BookId, q: int)
    ensures q > 0 ==> CartCount(UpdateQuantity(cart, id, q))
                      == CartCount(cart) - QuantityOf(cart, id) + q * Lines(cart, id)
    ensures q <= 0 ==> CartCount(UpdateQuantity(cart, id, q)) == CartCount(cart) - QuantityOf(cart, id)
  {
    if q <= 0 {
      RemoveCount(cart, id);
    } else if cart != [] {
      var n := |cart| - 1;
      UpdateCount(cart[..n], id, q);
      assert UpdateQuantity(cart, id, q)[..n] == UpdateQuantity(cart[..n], id, q);
    }
  }
}
