/**
  The list page (Dashboard.jsx): the work orders shown and the loading flag,
  changed by the load of the list and by deletion, and the titles and total
  each card prints. The store's answers are parameters: the result of the
  list query, the user's answer to the confirmation and whether the delete
  fails.
*/
module Dashboard {
  import opened Js

  datatype StoreCall = Delete(id: Value)

  /** What the list query returned: the store's error, or its `data`
      (null, or the rows, newest first). */
  datatype FetchResult = FetchFailed | Fetched(data: Option<seq<Record>>)

  /** `partes.filter(parte => parte.id !== id)` */
  function WithoutId(partes: seq<Record>, id: Value): (r: seq<Record>)
    ensures |r| <= |partes|
  {
    if partes == [] then []
    else (if Get(partes[0], "id") == id then [] else [partes[0]]) + WithoutId(partes[1..], id)
  }

  /** `a` is `b` with some elements dropped, the rest in the same order. */
  predicate IsSubsequence(a: seq<Record>, b: seq<Record>)
    decreases |b|
  {
    if a == [] then true
    else if b == [] then false
    else if a[0] == b[0] then IsSubsequence(a[1..], b[1..])
    else IsSubsequence(a, b[1..])
  }

  class DashboardState {
    var partes: seq<Record>
    var loading: bool
    var calls: seq<StoreCall>

    /** The page before the list has loaded: nothing shown, loading. */
    constructor ()
      ensures partes == [] && loading && calls == []
    {
      partes := [];
      loading := true;
      calls := [];
    }

    /** `fetchPartes`: the rows replace the list, no data as an empty list;
        an error keeps the list; loading ends in every case. */
    method FetchPartes(result: FetchResult)
      modifies this
      ensures result.Fetched? ==> partes == result.data.GetOr([])
      ensures result.FetchFailed? ==> partes == old(partes)
      ensures !loading && calls == old(calls)
    {
      if result.Fetched? {
        partes := result.data.GetOr([]);
      }
      loading := false;
    }

    /** `handleDelete`: only once confirmed, the row is deleted from the store
        and, if that succeeds, every work order with that id leaves the list. */
    method HandleDelete(id: Value, confirmed: bool, deleteFails: bool)
      modifies this
      ensures !confirmed ==> calls == old(calls) && partes == old(partes)
      ensures confirmed ==> calls == old(calls) + [Delete(id)]
      ensures confirmed && !deleteFails ==> partes == WithoutId(old(partes), id)
      ensures deleteFails ==> partes == old(partes)
      ensures loading == old(loading)
    {
      if confirmed {
        calls := calls + [Delete(id)];
        if !deleteFails {
          partes := WithoutId(partes, id);
        }
      }
    }
  }

  /** The title of a card and of a table row: the number, or "Parte <id>"
      while there is none. */
  function CardTitle(parte: Record): string {
    var numero := Get(parte, "numero_parte");
    if Truthy(numero) then ToString(numero) else "Parte " + ToString(Get(parte, "id"))
  }

  /** The title of a mobile card: "Nº " and the number, or "P-" and the id
      padded to four digits while there is none. `id.toString()` on a
      missing id throws (None). */
  function MobileTitle(parte: Record): Option<string> {
    var numero := Get(parte, "numero_parte");
    if Truthy(numero) then Some("Nº " + ToString(numero))
    else if Get(parte, "id") == Null then None
    else Some("Nº P-" + PadStart(ToString(Get(parte, "id")), 4, '0'))
  }

  /** The total a mobile card prints, "0,00" when the row has none. */
  function TotalText(parte: Record): string {
    ToString(Or(Get(parte, "total"), Str("0,00"))) + " €"
  }

  // ---------------------------------------------------------------------
  // Properties of deletion
  // ---------------------------------------------------------------------

  /** After a deletion the list holds exactly the work orders it held whose
      id differs. */
  lemma {:induction false} WithoutIdMembers(partes: seq<Record>, id: Value)
    ensures forall p :: p in WithoutId(partes, id) <==> p in partes && Get(p, "id") != id
  {
    if partes != [] {
      WithoutIdMembers(partes[1..], id);
      assert partes == [partes[0]] + partes[1..];
    }
  }

  /** Deletion keeps every other work order as many times as it was listed,
      and no copy of one with that id. */
  lemma {:induction false} WithoutIdCounts(partes: seq<Record>, id: Value)
    ensures forall p :: multiset(WithoutId(partes, id))[p] == (if Get(p, "id") == id then 0 else multiset(partes)[p])
  {
    if partes != [] {
      WithoutIdCounts(partes[1..], id);
      assert partes == [partes[0]] + partes[1..];
      var head := if Get(partes[0], "id") == id then [] else [partes[0]];
      assert WithoutId(partes, id) == head + WithoutId(partes[1..], id);
      assert multiset(WithoutId(partes, id)) == multiset(head) + multiset(WithoutId(partes[1..], id));
      assert multiset(partes) == multiset([partes[0]]) + multiset(partes[1..]);
    }
  }

  /** Deletion keeps the remaining work orders in their order. */
  lemma {:induction false} WithoutIdOrder(partes: seq<Record>, id: Value)
    ensures IsSubsequence(WithoutId(partes, id), partes)
  {
    if partes != [] {
      WithoutIdOrder(partes[1..], id);
      var rest := WithoutId(partes[1..], id);
      if Get(partes[0], "id") == id {
        assert WithoutId(partes, id) == [] + rest == rest;
        SubsequenceSkip(rest, partes);
      } else {
        var r := [partes[0]] + rest;
        assert WithoutId(partes, id) == r;
        assert r[1..] == rest;
      }
    }
  }

  /** A subsequence of the tail is a subsequence of the whole. */
  lemma {:induction false} SubsequenceSkip(a: seq<Record>, b: seq<Record>)
    requires b != [] && IsSubsequence(a, b[1..])
    ensures IsSubsequence(a, b)
    decreases |a| + |b|
  {
    if a != [] && a[0] == b[0] {
      SubsequenceTail(a, b[1..]);
    }
  }

  /** Dropping the first element of a subsequence keeps it a subsequence. */
  lemma {:induction false} SubsequenceTail(a: seq<Record>, b: seq<Record>)
    requires a != [] && IsSubsequence(a, b)
    ensures IsSubsequence(a[1..], b)
    decreases |a| + |b|
  {
    if a[1..] != [] {
      if a[0] == b[0] {
        SubsequenceSkip(a[1..], b);
      } else {
        SubsequenceTail(a, b[1..]);
        SubsequenceSkip(a[1..], b);
      }
    }
  }

  /** Deleting an id no work order has leaves the list as it was. */
  lemma {:induction false} WithoutAbsentId(partes: seq<Record>, id: Value)
    requires forall k :: 0 <= k < |partes| ==> Get(partes[k], "id") != id
    ensures WithoutId(partes, id) == partes
  {
    if partes != [] {
      WithoutAbsentId(partes[1..], id);
      assert partes == [partes[0]] + partes[1..];
    }
  }

  /** Deleting twice is deleting once. */
  lemma WithoutIdTwice(partes: seq<Record>, id: Value)
    ensures WithoutId(WithoutId(partes, id), id) == WithoutId(partes, id)
  {
    var r := WithoutId(partes, id);
    WithoutIdMembers(partes, id);
    forall k | 0 <= k < |r|
      ensures Get(r[k], "id") != id
    {
      assert r[k] in r;
    }
    WithoutAbsentId(r, id);
  }

  // ---------------------------------------------------------------------
  // Properties of the titles and total
  // ---------------------------------------------------------------------

  /** With a number both titles show it; without one both fall back to the
      id, the mobile one padded. */
  lemma TitlesAgree(parte: Record)
    ensures Truthy(Get(parte, "numero_parte")) ==>
      MobileTitle(parte) == Some("Nº " + CardTitle(parte)) && CardTitle(parte) == ToString(Get(parte, "numero_parte"))
    ensures !Truthy(Get(parte, "numero_parte")) ==>
      CardTitle(parte) == "Parte " + ToString(Get(parte, "id"))
    ensures !Truthy(Get(parte, "numero_parte")) && Get(parte, "id") != Null ==>
      MobileTitle(parte) == Some("Nº P-" + PadStart(ToString(Get(parte, "id")), 4, '0'))
  {
  }

  /** Without a number, a numeric id below 10000 shows as exactly four digits
      that read back as the id; a larger one is shown whole. */
  lemma MobileIdDigits(parte: Record, n: nat)
    requires !Truthy(Get(parte, "numero_parte")) && Get(parte, "id") == Number(n)
    ensures MobileTitle(parte).Some?
    ensures var d := MobileTitle(parte).value[5..];
      && MobileTitle(parte).value == "Nº P-" + d
      && AllDigits(d) && DigitsValue(d) == n
      && |d| == (if n < 10000 then 4 else |NatString(n)|)
  {
    var d := PadStart(NatString(n), 4, '0');
    assert MobileTitle(parte) == Some("Nº P-" + d);
    assert ("Nº P-" + d)[5..] == d;
    PaddedDigits(n);
  }

  /** An id padded to four digits reads back as the id, and is four digits
      long exactly when the id is below 10000. */
  lemma PaddedDigits(n: nat)
    ensures var d := PadStart(NatString(n), 4, '0');
      && AllDigits(d) && DigitsValue(d) == n
      && |d| == (if n < 10000 then 4 else |NatString(n)|)
  {
    var s := NatString(n);
    assert Pow10(4) == 10000 by {
      assert Pow10(0) == 1;
    }
    if n < 10000 {
      NatStringShort(n, 4);
      LeadingZerosValue(4 - |s|, s);
    } else {
      NatStringLong(n, 4);
    }
  }

  /** A number of at least 10^k has more than k digits. */
  lemma {:induction false} NatStringLong(n: nat, k: nat)
    requires n >= Pow10(k)
    ensures |NatString(n)| > k
  {
    if k > 0 {
      assert Pow10(k) == 10 * Pow10(k - 1);
      assert n >= 10;
      assert NatString(n) == NatString(n / 10) + [DigitChar(n % 10)];
      NatStringLong(n / 10, k - 1);
    }
  }

  /** A work order without a total prints "0,00 €"; one with a total prints it. */
  lemma TotalShown(parte: Record)
    ensures !Truthy(Get(parte, "total")) ==> TotalText(parte) == "0,00 €"
    ensures Get(parte, "total").Str? && Truthy(Get(parte, "total")) ==> TotalText(parte) == Get(parte, "total").s + " €"
  {
  }
}
