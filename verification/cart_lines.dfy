/** Cart lines and the line-list operations both cart stores are built from.
    A store keeps its lines in a JavaScript `Map` keyed by cart id; a Map
    iterates in insertion order, `set` on an existing key replaces the value in
    place and `delete` drops the entry, which is what `Put` and `Delete` model
    on a sequence whose ids are unique. */
module CartLines {
  import opened Common
  import opened Catalogue

  /** One cart line: a copy of the product (`...bike`) plus the line's own
      fields. `image` overrides the product's image with the resolved one. */
  datatype CartLine<Id> = CartLine(
    product: Product,
    cartId: Id,
    selectedColor: string,
    quantity: int,
    lineTotal: int,
    image: Option<string>
  )

  function Ids<Id>(lines: seq<CartLine<Id>>): set<Id> {
    set i | 0 <= i < |lines| :: lines[i].cartId
  }

  /** No two lines share a cart id (the Map's keys are distinct). */
  predicate UniqueIds<Id(==)>(lines: seq<CartLine<Id>>) {
    forall i, j :: 0 <= i < j < |lines| ==> lines[i].cartId != lines[j].cartId
  }

  /** Every line total is its price times its quantity. */
  predicate TotalsConsistent<Id>(lines: seq<CartLine<Id>>) {
    forall i :: 0 <= i < |lines| ==> lines[i].lineTotal == lines[i].product.price * lines[i].quantity
  }

  /** The line's total recomputed from its price and quantity. */
  function Recomputed<Id>(line: CartLine<Id>): (r: CartLine<Id>)
    ensures r.lineTotal == line.product.price * line.quantity
    ensures r.(lineTotal := line.lineTotal) == line
  {
    line.(lineTotal := line.product.price * line.quantity)
  }

  /** The position of the line with cart id `id`. */
  function IndexOfId<Id(==)>(lines: seq<CartLine<Id>>, id: Id): (r: Option<nat>)
    ensures r.None? <==> id !in Ids(lines)
    ensures r.Some? ==> r.value < |lines| && lines[r.value].cartId == id
                        && forall j :: 0 <= j < r.value ==> lines[j].cartId != id
  {
    if |lines| == 0 then None
    else if lines[0].cartId == id then Some(0)
    else
      assert Ids(lines) == {lines[0].cartId} + Ids(lines[1..]) by {
        assert forall i :: 0 < i < |lines| ==> lines[i] == lines[1..][i - 1];
      }
      match IndexOfId(lines[1..], id)
      case None => None
      case Some(k) => Some(k + 1)
  }

  lemma UniqueIndex<Id>(lines: seq<CartLine<Id>>, k: nat)
    requires UniqueIds(lines) && k < |lines|
    ensures IndexOfId(lines, lines[k].cartId) == Some(k)
  {
  }

  lemma IdsCons<Id>(x: CartLine<Id>, s: seq<CartLine<Id>>)
    ensures Ids([x] + s) == {x.cartId} + Ids(s)
  {
    var t := [x] + s;
    forall y | y in Ids(t) ensures y in {x.cartId} + Ids(s) {
      var i :| 0 <= i < |t| && t[i].cartId == y;
      if i > 0 {
        assert s[i - 1].cartId == y;
      }
    }
    forall y | y in Ids(s) ensures y in Ids(t) {
      var i :| 0 <= i < |s| && s[i].cartId == y;
      assert t[i + 1].cartId == y;
    }
    assert t[0].cartId == x.cartId;
  }

  lemma IdsSnoc<Id>(s: seq<CartLine<Id>>, x: CartLine<Id>)
    ensures Ids(s + [x]) == Ids(s) + {x.cartId}
  {
    var t := s + [x];
    assert forall i :: 0 <= i < |s| ==> t[i] == s[i];
    assert t[|s|] == x;
  }

  /** `map.set(line.cartId, line)`: replaces the line with that id where it
      stands, or appends a new line at the end of the insertion order. */
  function Put<Id(==)>(lines: seq<CartLine<Id>>, line: CartLine<Id>): (r: seq<CartLine<Id>>)
    ensures line in r
    ensures Ids(r) == Ids(lines) + {line.cartId}
    ensures line.cartId in Ids(lines) ==> |r| == |lines|
    ensures line.cartId !in Ids(lines) ==> r == lines + [line]
    ensures forall i :: 0 <= i < |lines| && lines[i].cartId != line.cartId ==> r[i] == lines[i]
    ensures UniqueIds(lines) ==> UniqueIds(r)
  {
    match IndexOfId(lines, line.cartId)
    case None =>
      IdsSnoc(lines, line);
      assert (lines + [line])[|lines|] == line;
      lines + [line]
    case Some(k) =>
      var r := lines[k := line];
      assert Ids(r) == Ids(lines) by {
        assert forall i :: 0 <= i < |lines| ==> r[i].cartId == lines[i].cartId;
      }
      assert r[k] == line;
      r
  }

  /** Every line `Put` leaves is an old line or the new one. */
  lemma PutMembers<Id>(lines: seq<CartLine<Id>>, line: CartLine<Id>)
    ensures forall l :: l in Put(lines, line) ==> l in lines || l == line
  {
    match IndexOfId(lines, line.cartId)
    case None =>
    case Some(k) =>
      var r := lines[k := line];
      forall l | l in r ensures l in lines || l == line {
        var i :| 0 <= i < |r| && r[i] == l;
        if i != k {
          assert r[i] == lines[i];
        }
      }
  }

  /** Putting a line whose total is right keeps every total right. */
  lemma PutKeepsTotals<Id>(lines: seq<CartLine<Id>>, line: CartLine<Id>)
    requires TotalsConsistent(lines) && line.lineTotal == line.product.price * line.quantity
    ensures TotalsConsistent(Put(lines, line))
  {
    PutMembers(lines, line);
    var r := Put(lines, line);
    forall i | 0 <= i < |r| ensures r[i].lineTotal == r[i].product.price * r[i].quantity {
      if r[i] != line {
        var j :| 0 <= j < |lines| && lines[j] == r[i];
      }
    }
  }

  /** `map.delete(id)`: every other line stays, in order. */
  function Delete<Id(==)>(lines: seq<CartLine<Id>>, id: Id): (r: seq<CartLine<Id>>)
    ensures Ids(r) == Ids(lines) - {id}
    ensures |r| <= |lines|
    ensures forall i :: 0 <= i < |r| ==> r[i] in lines && r[i].cartId != id
    ensures id !in Ids(lines) ==> r == lines
  {
    if |lines| == 0 then []
    else
      var rest := Delete(lines[1..], id);
      IdsCons(lines[0], lines[1..]);
      assert lines == [lines[0]] + lines[1..];
      if lines[0].cartId == id then rest
      else
        IdsCons(lines[0], rest);
        [lines[0]] + rest
  }

  /** Deleting keeps ids unique and totals consistent; with unique ids exactly
      one line goes when the id is present, and every other line stays. */
  lemma DeleteKeepsInvariants<Id>(lines: seq<CartLine<Id>>, id: Id)
    ensures UniqueIds(lines) ==> UniqueIds(Delete(lines, id))
    ensures UniqueIds(lines) && id in Ids(lines) ==> |Delete(lines, id)| == |lines| - 1
    ensures TotalsConsistent(lines) ==> TotalsConsistent(Delete(lines, id))
    ensures forall i :: 0 <= i < |lines| && lines[i].cartId != id ==> lines[i] in Delete(lines, id)
  {
    DeleteKeepsUnique(lines, id);
    DeleteRemovesOne(lines, id);
    DeleteKeepsOthers(lines, id);
    var r := Delete(lines, id);
    forall i | 0 <= i < |r| && TotalsConsistent(lines)
      ensures r[i].lineTotal == r[i].product.price * r[i].quantity
    {
      var j :| 0 <= j < |lines| && lines[j] == r[i];
    }
  }

  /** The head of a deletion: the first line goes exactly when it has the id. */
  lemma DeleteCons<Id>(lines: seq<CartLine<Id>>, id: Id)
    requires |lines| > 0
    ensures Delete(lines, id) == if lines[0].cartId == id then Delete(lines[1..], id)
                                 else [lines[0]] + Delete(lines[1..], id)
  {
  }

  /** The head of a list with unique ids has an id the tail does not. */
  lemma UniqueHead<Id>(lines: seq<CartLine<Id>>)
    requires UniqueIds(lines) && |lines| > 0
    ensures lines[0].cartId !in Ids(lines[1..]) && UniqueIds(lines[1..])
  {
    forall i | 0 <= i < |lines[1..]| ensures lines[1..][i].cartId != lines[0].cartId {
      assert lines[1..][i] == lines[i + 1];
    }
  }

  /** A line whose id the list does not hold keeps the ids unique in front. */
  lemma UniqueCons<Id>(x: CartLine<Id>, s: seq<CartLine<Id>>)
    requires UniqueIds(s) && x.cartId !in Ids(s)
    ensures UniqueIds([x] + s)
  {
    var r := [x] + s;
    forall i, j | 0 <= i < j < |r| ensures r[i].cartId != r[j].cartId {
      assert r[j] == s[j - 1];
      if i > 0 {
        assert r[i] == s[i - 1];
      }
    }
  }

  lemma {:induction false} DeleteKeepsUnique<Id>(lines: seq<CartLine<Id>>, id: Id)
    ensures UniqueIds(lines) ==> UniqueIds(Delete(lines, id))
    decreases |lines|
  {
    if |lines| > 0 && UniqueIds(lines) {
      UniqueHead(lines);
      DeleteKeepsUnique(lines[1..], id);
      DeleteCons(lines, id);
      if lines[0].cartId != id {
        UniqueCons(lines[0], Delete(lines[1..], id));
      }
    }
  }

  lemma {:induction false} DeleteRemovesOne<Id>(lines: seq<CartLine<Id>>, id: Id)
    ensures UniqueIds(lines) && id in Ids(lines) ==> |Delete(lines, id)| == |lines| - 1
    decreases |lines|
  {
    if |lines| > 0 && UniqueIds(lines) && id in Ids(lines) {
      DeleteCons(lines, id);
      IdsCons(lines[0], lines[1..]);
      assert lines == [lines[0]] + lines[1..];
      if lines[0].cartId == id {
        assert Delete(lines[1..], id) == lines[1..] by {
          assert id !in Ids(lines[1..]);
        }
      } else {
        DeleteRemovesOne(lines[1..], id);
      }
    }
  }

  lemma {:induction false} DeleteKeepsOthers<Id>(lines: seq<CartLine<Id>>, id: Id)
    ensures forall i :: 0 <= i < |lines| && lines[i].cartId != id ==> lines[i] in Delete(lines, id)
    decreases |lines|
  {
    if |lines| > 0 {
      DeleteKeepsOthers(lines[1..], id);
      DeleteCons(lines, id);
      forall i | 0 < i < |lines| ensures lines[i] == lines[1..][i - 1] {}
    }
  }

  /** Sets the quantity of line `k` and recomputes its total. */
  function SetQuantity<Id>(lines: seq<CartLine<Id>>, k: nat, quantity: int): (r: seq<CartLine<Id>>)
    requires k < |lines|
    ensures |r| == |lines|
    ensures r[k].quantity == quantity && r[k].lineTotal == lines[k].product.price * quantity
    ensures r[k].(quantity := lines[k].quantity, lineTotal := lines[k].lineTotal) == lines[k]
    ensures forall i :: 0 <= i < |lines| && i != k ==> r[i] == lines[i]
    ensures Ids(r) == Ids(lines)
    ensures UniqueIds<Id>(lines) ==> UniqueIds(r)
    ensures TotalsConsistent(lines) ==> TotalsConsistent(r)
  {
    var r := lines[k := lines[k].(quantity := quantity, lineTotal := lines[k].product.price * quantity)];
    assert Ids(r) == Ids(lines) by {
      assert forall i :: 0 <= i < |lines| ==> r[i].cartId == lines[i].cartId;
    }
    r
  }

  /** The first line holding product `bikeId` in colour `color`. */
  function FindExisting<Id>(lines: seq<CartLine<Id>>, bikeId: string, color: string): (r: Option<nat>)
    ensures r.None? <==> forall i :: 0 <= i < |lines| ==>
      !(lines[i].product.id == bikeId && lines[i].selectedColor == color)
    ensures r.Some? ==>
      && r.value < |lines|
      && lines[r.value].product.id == bikeId && lines[r.value].selectedColor == color
      && (forall j :: 0 <= j < r.value ==>
            !(lines[j].product.id == bikeId && lines[j].selectedColor == color))
  {
    if |lines| == 0 then None
    else if lines[0].product.id == bikeId && lines[0].selectedColor == color then Some(0)
    else
      match FindExisting(lines[1..], bikeId, color)
      case None => None
      case Some(k) => Some(k + 1)
  }

  // ---------------------------------------------------------------------------
  // Sums over the lines (`items.reduce((acc, item) => acc + ..., 0)`)

  function SumBy<Id>(lines: seq<CartLine<Id>>, f: CartLine<Id> -> int): int {
    if |lines| == 0 then 0 else f(lines[0]) + SumBy(lines[1..], f)
  }

  function LineTotalOf<Id>(line: CartLine<Id>): int { line.lineTotal }
  function QuantityOf<Id>(line: CartLine<Id>): int { line.quantity }
  function ValueOf<Id>(line: CartLine<Id>): int { line.product.price * line.quantity }

  lemma {:induction false} SumByConcat<Id>(a: seq<CartLine<Id>>, b: seq<CartLine<Id>>, f: CartLine<Id> -> int)
    ensures SumBy(a + b, f) == SumBy(a, f) + SumBy(b, f)
    decreases |a|
  {
    if |a| > 0 {
      assert (a + b)[1..] == a[1..] + b;
      SumByConcat(a[1..], b, f);
    } else {
      assert a + b == b;
    }
  }

  /** Replacing one line changes the sum by the difference of the two lines. */
  lemma {:induction false} SumByUpdate<Id>(lines: seq<CartLine<Id>>, k: nat, x: CartLine<Id>, f: CartLine<Id> -> int)
    requires k < |lines|
    ensures SumBy(lines[k := x], f) == SumBy(lines, f) - f(lines[k]) + f(x)
    decreases k
  {
    if k > 0 {
      assert lines[k := x][1..] == lines[1..][k - 1 := x];
      SumByUpdate(lines[1..], k - 1, x, f);
    }
  }

  /** Deleting a present id removes exactly that line's contribution. */
  lemma {:induction false} SumByDelete<Id>(lines: seq<CartLine<Id>>, k: nat, f: CartLine<Id> -> int)
    requires UniqueIds(lines) && k < |lines|
    ensures SumBy(Delete(lines, lines[k].cartId), f) == SumBy(lines, f) - f(lines[k])
    decreases k
  {
    var id := lines[k].cartId;
    IdsCons(lines[0], lines[1..]);
    assert lines == [lines[0]] + lines[1..];
    if k == 0 {
      assert id !in Ids(lines[1..]);
    } else {
      assert lines[0].cartId != id;
      SumByDelete(lines[1..], k - 1, f);
    }
  }

  /** When every line total is consistent, the sum of the line totals is the
      sum of price times quantity. */
  lemma {:induction false} TotalIsValue<Id>(lines: seq<CartLine<Id>>)
    ensures TotalsConsistent(lines) ==> SumBy(lines, LineTotalOf) == SumBy(lines, ValueOf)
    decreases |lines|
  {
    if |lines| > 0 {
      TotalIsValue(lines[1..]);
    }
  }

  /** With every quantity at least 1, the count is at least the number of lines. */
  lemma {:induction false} CountAtLeastLines<Id>(lines: seq<CartLine<Id>>)
    ensures (forall i :: 0 <= i < |lines| ==> lines[i].quantity >= 1) ==> SumBy(lines, QuantityOf) >= |lines|
    decreases |lines|
  {
    if |lines| > 0 {
      CountAtLeastLines(lines[1..]);
      if forall i :: 0 <= i < |lines| ==> lines[i].quantity >= 1 {
        assert forall i :: 0 <= i < |lines[1..]| ==> lines[1..][i] == lines[i + 1];
      }
    }
  }

  // ---------------------------------------------------------------------------
  // Re-resolving images against a reloaded catalogue

  /** The catalogue product a line refers to: the current store builds a Map
      from the catalogue, so the last product with the id wins; the older store
      uses `find`, so the first one wins. */
  function Lookup(bikes: seq<Product>, id: string, lastWins: bool): (r: Option<Product>)
    ensures r.None? <==> forall i :: 0 <= i < |bikes| ==> bikes[i].id != id
    ensures r.Some? ==> r.value.id == id
  {
    if lastWins then FindLast(bikes, id) else FindFirst(bikes, id)
  }

  /** One line after its image is re-resolved, if its product is in `bikes`. */
  function Refreshed<Id>(line: CartLine<Id>, bikes: seq<Product>, lastWins: bool): (r: CartLine<Id>)
    ensures r.(image := line.image) == line
    ensures Lookup(bikes, line.product.id, lastWins).None? ==> r == line
    ensures Lookup(bikes, line.product.id, lastWins).Some? ==>
      r.image == ColorImage(Lookup(bikes, line.product.id, lastWins).value, line.selectedColor, CardPlaceholder)
  {
    match Lookup(bikes, line.product.id, lastWins)
    case None => line
    case Some(bike) => line.(image := ColorImage(bike, line.selectedColor, CardPlaceholder))
  }

  /** Every line refreshed, in order. */
  function RefreshLines<Id>(lines: seq<CartLine<Id>>, bikes: seq<Product>, lastWins: bool): (r: seq<CartLine<Id>>)
    ensures |r| == |lines|
    ensures forall i :: 0 <= i < |lines| ==> r[i] == Refreshed(lines[i], bikes, lastWins)
  {
    seq(|lines|, i requires 0 <= i < |lines| => Refreshed(lines[i], bikes, lastWins))
  }

  /** Some line's image actually changes. */
  predicate SomeImageChanges<Id>(lines: seq<CartLine<Id>>, bikes: seq<Product>, lastWins: bool) {
    exists i :: 0 <= i < |lines| && Refreshed(lines[i], bikes, lastWins).image != lines[i].image
  }

  lemma RefreshKeepsIds<Id>(lines: seq<CartLine<Id>>, bikes: seq<Product>, lastWins: bool)
    ensures Ids(RefreshLines(lines, bikes, lastWins)) == Ids(lines)
  {
    var r := RefreshLines(lines, bikes, lastWins);
    assert forall i :: 0 <= i < |lines| ==> r[i].cartId == lines[i].cartId;
  }

  lemma RefreshChangeHasCause<Id>(lines: seq<CartLine<Id>>, bikes: seq<Product>, lastWins: bool)
    requires RefreshLines(lines, bikes, lastWins) != lines
    ensures SomeImageChanges(lines, bikes, lastWins)
  {
    var r := RefreshLines(lines, bikes, lastWins);
    var i :| 0 <= i < |lines| && r[i] != lines[i];
    assert Refreshed(lines[i], bikes, lastWins).image != lines[i].image;
  }

  lemma ImageChangeShows<Id>(lines: seq<CartLine<Id>>, bikes: seq<Product>, lastWins: bool)
    requires SomeImageChanges(lines, bikes, lastWins)
    ensures RefreshLines(lines, bikes, lastWins) != lines
  {
    var i :| 0 <= i < |lines| && Refreshed(lines[i], bikes, lastWins).image != lines[i].image;
    assert RefreshLines(lines, bikes, lastWins)[i] != lines[i];
  }

  /** The refreshed lines differ from the old ones exactly when some image
      changed, so "save and notify when updated" is "save and notify when the
      cart changed". */
  lemma RefreshChangesIffSomeImageChanges<Id>(lines: seq<CartLine<Id>>, bikes: seq<Product>, lastWins: bool)
    ensures RefreshLines(lines, bikes, lastWins) != lines <==> SomeImageChanges(lines, bikes, lastWins)
    ensures Ids(RefreshLines(lines, bikes, lastWins)) == Ids(lines)
  {
    if RefreshLines(lines, bikes, lastWins) != lines {
      RefreshChangeHasCause(lines, bikes, lastWins);
    }
    if SomeImageChanges(lines, bikes, lastWins) {
      ImageChangeShows(lines, bikes, lastWins);
    }
    RefreshKeepsIds(lines, bikes, lastWins);
  }

  lemma RefreshKeepsInvariants<Id>(lines: seq<CartLine<Id>>, bikes: seq<Product>, lastWins: bool)
    ensures UniqueIds(lines) ==> UniqueIds(RefreshLines(lines, bikes, lastWins))
    ensures TotalsConsistent(lines) ==> TotalsConsistent(RefreshLines(lines, bikes, lastWins))
  {
  }
}
