/**
 * The cart's displayed total: the sum of its lines' subtotals, where a line
 * missing its price snapshot or its quantity adds nothing.
 */
module CartMapper {
  import opened Domain
  import opened CartItemMapper

  /**
   * Sum of the subtotals of a cart's lines. A cart's lines have no order, so
   * the sum takes them in any order; LinesTotalRemove shows every order gives
   * the same sum.
   */
  ghost function LinesTotal(lines: map<Id, CartItem>): int
    decreases |lines|
  {
    if lines == map[] then 0
    else
      HasKey(lines);
      var p :| p in lines;
      Subtotal(lines[p]) + LinesTotal(lines - {p})
  }

  /** Any line may be taken out first. */
  lemma {:induction false} LinesTotalRemove(lines: map<Id, CartItem>, p: Id)
    requires p in lines
    ensures LinesTotal(lines) == Subtotal(lines[p]) + LinesTotal(lines - {p})
    decreases |lines|
  {
    var q :| q in lines && LinesTotal(lines) == Subtotal(lines[q]) + LinesTotal(lines - {q});
    if q != p {
      assert (lines - {q}).Keys == lines.Keys - {q};
      assert (lines - {p}).Keys == lines.Keys - {p};
      LinesTotalRemove(lines - {q}, p);
      LinesTotalRemove(lines - {p}, q);
      assert lines - {q} - {p} == lines - {p} - {q};
    }
  }

  /** Adding a line to a cart adds exactly its subtotal. */
  lemma LinesTotalInsert(lines: map<Id, CartItem>, p: Id, item: CartItem)
    requires p !in lines
    ensures LinesTotal(lines[p := item]) == LinesTotal(lines) + Subtotal(item)
  {
    LinesTotalRemove(lines[p := item], p);
    assert lines[p := item] - {p} == lines;
  }

  /** Lines with a null price or a null quantity never change the total. */
  lemma {:induction false} IncompleteLinesAddNothing(lines: map<Id, CartItem>)
    requires forall p :: p in lines ==> lines[p].priceSnapshot.None? || lines[p].quantity.None?
    ensures LinesTotal(lines) == 0
    decreases |lines|
  {
    if lines != map[] {
      HasKey(lines);
      var p :| p in lines;
      LinesTotalRemove(lines, p);
      assert (lines - {p}).Keys == lines.Keys - {p};
      IncompleteLinesAddNothing(lines - {p});
    }
  }

  /**
   * CartMapper.fillTotal: the total written into the response, 0 for a null
   * collection of lines.
   */
  method FillTotal(items: Option<map<Id, CartItem>>) returns (total: int)
    ensures items.None? ==> total == 0
    ensures items.Some? ==> total == LinesTotal(items.value)
  {
    total := 0;
    if items.Some? {
      var rest := items.value;
      while rest != map[]
        invariant total + LinesTotal(rest) == LinesTotal(items.value)
        decreases |rest|
      {
        HasKey(rest);
        var p :| p in rest;
        var i := rest[p];
        if i.priceSnapshot.Some? && i.quantity.Some? {
          total := total + i.priceSnapshot.value * i.quantity.value;
        }
        LinesTotalRemove(rest, p);
        assert (rest - {p}).Keys == rest.Keys - {p};
        rest := rest - {p};
      }
    }
  }

  /** The two-line cart of the mapper's test: 100 x 2 + 50 x 3 = 350. */
  lemma TwoLineCartTotal()
    ensures LinesTotal(map[1 := CartItem(7, 1, Some(2), Some(100)), 2 := CartItem(7, 2, Some(3), Some(50))]) == 350
  {
    var one := map[1 := CartItem(7, 1, Some(2), Some(100))];
    LinesTotalInsert(map[], 1, CartItem(7, 1, Some(2), Some(100)));
    LinesTotalInsert(one, 2, CartItem(7, 2, Some(3), Some(50)));
    assert one[2 := CartItem(7, 2, Some(3), Some(50))]
        == map[1 := CartItem(7, 1, Some(2), Some(100)), 2 := CartItem(7, 2, Some(3), Some(50))];
  }
}
