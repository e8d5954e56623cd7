/** The two product rows of the home page (HomePage.tsx). */
module Home {

  import opened Types
  import opened Seqs

  /** How many products each row shows. */
  const RowLength: nat := 4

  /** A best seller has a rating of at least 4.5 stars (ratings in tenths). */
  const BestSellerRating: nat := 45

  predicate IsBestSeller(s: Saree) {
    s.rating >= BestSellerRating
  }

  function Min(a: nat, b: nat): nat {
    if a <= b then a else b
  }

  /** `slice(0, n)`: the first n elements, or all of them when there are fewer. */
  function Take<T>(s: seq<T>, n: nat): (r: seq<T>)
    ensures |r| == Min(n, |s|)
    ensures forall i :: 0 <= i < |r| ==> r[i] == s[i]
  {
    s[..Min(n, |s|)]
  }

  /** "New Arrivals": the catalog's first four products. */
  function NewArrivals(c: seq<Saree>): (r: seq<Saree>)
    ensures |r| == Min(RowLength, |c|)
    ensures r <= c
  {
    Take(c, RowLength)
  }

  /** "Best Sellers": the first four highly rated products. */
  function BestSellers(c: seq<Saree>): (r: seq<Saree>)
    ensures |r| <= RowLength
    ensures forall i :: 0 <= i < |r| ==> IsBestSeller(r[i])
    ensures forall x :: x in r ==> x in c
  {
    Take(Keep(c, IsBestSeller), RowLength)
  }

  /** An independent reading of "the first n qualifying products": walk the
      catalog once, taking each qualifying product while room is left. */
  function FirstQualifying(c: seq<Saree>, n: nat): seq<Saree>
    decreases |c|
  {
    if n == 0 || c == [] then []
    else if IsBestSeller(c[0]) then [c[0]] + FirstQualifying(c[1..], n - 1)
    else FirstQualifying(c[1..], n)
  }

  lemma {:induction false} TakeKeepIsFirstQualifying(c: seq<Saree>, n: nat)
    ensures Take(Keep(c, IsBestSeller), n) == FirstQualifying(c, n)
    decreases |c|
  {
    if n == 0 {
      assert Take(Keep(c, IsBestSeller), n) == [];
    } else if c == [] {
      assert Keep(c, IsBestSeller) == [];
    } else if IsBestSeller(c[0]) {
      TakeKeepIsFirstQualifying(c[1..], n - 1);
      TakeKeepTaken(c, n);
    } else {
      TakeKeepIsFirstQualifying(c[1..], n);
      KeepSkipped(c);
    }
  }

  /** A qualifying head is taken and uses up one place. */
  lemma TakeKeepTaken(c: seq<Saree>, n: nat)
    requires c != [] && n > 0 && IsBestSeller(c[0])
    ensures Take(Keep(c, IsBestSeller), n) == [c[0]] + Take(Keep(c[1..], IsBestSeller), n - 1)
  {
    var rest := Keep(c[1..], IsBestSeller);
    assert Keep(c, IsBestSeller) == [c[0]] + rest;
    TakeCons(c[0], rest, n);
  }

  /** A head that does not qualify is passed over. */
  lemma KeepSkipped(c: seq<Saree>)
    requires c != [] && !IsBestSeller(c[0])
    ensures Keep(c, IsBestSeller) == Keep(c[1..], IsBestSeller)
  {
  }

  lemma TakeCons<T>(x: T, s: seq<T>, n: nat)
    requires n > 0
    ensures Take([x] + s, n) == [x] + Take(s, n - 1)
  {
  }

  /** The best sellers are the first four qualifying products in catalog order. */
  lemma BestSellersInCatalogOrder(c: seq<Saree>)
    ensures BestSellers(c) == FirstQualifying(c, RowLength)
  {
    TakeKeepIsFirstQualifying(c, RowLength);
  }

  /** No qualifying product is skipped while the row has room. */
  lemma BestSellersSkipOnlyWhenFull(c: seq<Saree>, x: Saree)
    requires x in c && IsBestSeller(x)
    ensures x in BestSellers(c) || |BestSellers(c)| == RowLength
  {
    var k := Keep(c, IsBestSeller);
    if |k| <= RowLength {
      assert Take(k, RowLength) == k;
    }
  }

  /** With four or more qualifying products the row is full. */
  lemma BestSellersFull(c: seq<Saree>)
    requires |Keep(c, IsBestSeller)| >= RowLength
    ensures |BestSellers(c)| == RowLength
  {
  }

  /** A catalog of at most four products is shown whole as new arrivals. */
  lemma SmallCatalogAllNew(c: seq<Saree>)
    requires |c| <= RowLength
    ensures NewArrivals(c) == c
  {
  }
}
