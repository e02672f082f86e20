/** The order page's pricing and selection helpers: the word-count tiers,
    the bundle discount, the add-on ("upsell") catalogue, the totals and
    the list toggles that maintain the customer's selections. Amounts are
    exact `real` dollars. */
module Pricing {

  import opened Wrappers

  datatype Tier = Small | Medium | Large

  /** A word-count tier: its upper bound as advertised and its price per language. */
  datatype TierInfo = TierInfo(maxWords: nat, basePrice: nat)

  function TierTable(t: Tier): TierInfo {
    match t
    case Small => TierInfo(30000, 150)
    case Medium => TierInfo(80000, 350)
    case Large => TierInfo(150000, 600)
  }

  /** The bundle discount in percent for a bundle of `k` languages, 1 <= k <= 4. */
  function BundleDiscount(k: nat): (pct: nat)
    requires 1 <= k <= 4
  {
    match k
    case 1 => 0
    case 2 => 12
    case 3 => 25
    case 4 => 37
  }

  datatype Language = Language(code: string, name: string)

  const CoreLanguages: seq<Language> := [
    Language("es", "Spanish"), Language("fr", "French"),
    Language("de", "German"), Language("pt", "Portuguese")]

  /** An add-on; `priceAll` is the price that applies when more than one
      language is selected, for the one add-on that has such a price. */
  datatype Upsell = Upsell(id: string, price: nat, priceAll: nat, perLanguage: bool)

  const LaunchPack := "launch-pack"

  const Upsells: seq<Upsell> := [
    Upsell(LaunchPack, 29, 49, true),
    Upsell("newsletter", 99, 0, false),
    Upsell("author-list", 149, 0, false),
    Upsell("full-promo", 249, 0, false)]

  /** The tier for a word count. */
  function DetermineTier(words: int): (t: Tier)
    ensures t == Small <==> words <= TierTable(Small).maxWords
    ensures t == Medium <==> TierTable(Small).maxWords < words <= TierTable(Medium).maxWords
    ensures t == Large <==> TierTable(Medium).maxWords < words
  {
    if words <= 30000 then Small
    else if words <= 80000 then Medium
    else Large
  }

  function TierRank(t: Tier): nat {
    match t
    case Small => 0
    case Medium => 1
    case Large => 2
  }

  /** More words never give a cheaper tier. */
  lemma DetermineTierMonotone(w1: int, w2: int)
    requires w1 <= w2
    ensures TierRank(DetermineTier(w1)) <= TierRank(DetermineTier(w2))
    ensures TierTable(DetermineTier(w1)).basePrice <= TierTable(DetermineTier(w2)).basePrice
  {
  }

  function Min(a: int, b: int): int { if a <= b then a else b }

  /** The price without any bundle discount. */
  function ListPrice(tier: Option<Tier>, numLanguages: nat): real {
    if tier.None? then 0.0 else (TierTable(tier.value).basePrice * numLanguages) as real
  }

  /** The translation price: the base price per language times the number
      of languages, less the bundle percent for `min(n, 4)` languages. */
  function CalculatePrice(tier: Option<Tier>, numLanguages: nat): (r: real)
    ensures tier.None? || numLanguages == 0 ==> r == 0.0
    ensures 0.0 <= r <= ListPrice(tier, numLanguages)
    ensures tier.Some? && numLanguages > 0 ==>
      r == ListPrice(tier, numLanguages) * (100 - BundleDiscount(Min(numLanguages, 4))) as real / 100.0
  {
    if tier.None? || numLanguages == 0 then 0.0
    else
      var baseTotal := (TierTable(tier.value).basePrice * numLanguages) as real;
      var discount := baseTotal * (BundleDiscount(Min(numLanguages, 4)) as real / 100.0);
      baseTotal - discount
  }

  /** The price is always a whole number of cents, so the two-decimal
      formatting the page applies to it loses nothing. */
  lemma PriceIsWholeCents(tier: Option<Tier>, numLanguages: nat)
    ensures (CalculatePrice(tier, numLanguages) * 100.0).Floor as real == CalculatePrice(tier, numLanguages) * 100.0
  {
    if tier.Some? && numLanguages > 0 {
      var base := TierTable(tier.value).basePrice * numLanguages;
      var cents: int := base * (100 - BundleDiscount(Min(numLanguages, 4)));
      assert CalculatePrice(tier, numLanguages) * 100.0 == cents as real;
    }
  }

  /** One more language never lowers the total translation price ... */
  lemma PriceMonotoneInLanguages(tier: Option<Tier>, n: nat)
    ensures CalculatePrice(tier, n) <= CalculatePrice(tier, n + 1)
  {
    if tier.Some? && n > 0 {
      var b := TierTable(tier.value).basePrice as real;
      assert CalculatePrice(tier, n) == b * n as real * (100 - BundleDiscount(Min(n, 4))) as real / 100.0;
      assert CalculatePrice(tier, n + 1) == b * (n + 1) as real * (100 - BundleDiscount(Min(n + 1, 4))) as real / 100.0;
    }
  }

  /** The price per language once `n` languages are ordered. */
  function PerLanguage(tier: Tier, n: nat): real
    requires n > 0
  {
    TierTable(tier).basePrice as real * (100 - BundleDiscount(Min(n, 4))) as real / 100.0
  }

  lemma PriceOfLanguages(tier: Tier, n: nat)
    requires n > 0
    ensures CalculatePrice(Some(tier), n) / n as real == PerLanguage(tier, n)
  {
    var b := TierTable(tier).basePrice as real;
    var d := (100 - BundleDiscount(Min(n, 4))) as real;
    var x := n as real;
    assert CalculatePrice(Some(tier), n) == (b * x) * d / 100.0;
    assert (b * x) * d / 100.0 == x * PerLanguage(tier, n);
  }

  /** ... while the price per language never goes up. */
  lemma PricePerLanguageNonIncreasing(tier: Option<Tier>, n: nat)
    requires n > 0
    ensures CalculatePrice(tier, n + 1) / (n + 1) as real <= CalculatePrice(tier, n) / n as real
  {
    if tier.Some? {
      PriceOfLanguages(tier.value, n);
      PriceOfLanguages(tier.value, n + 1);
      assert BundleDiscount(Min(n, 4)) <= BundleDiscount(Min(n + 1, 4));
    }
  }

  /** The advertised example: an 80k-word book in all four languages costs
      $882 instead of $1400. */
  lemma AdvertisedBundleExample()
    ensures DetermineTier(80000) == Medium
    ensures ListPrice(Some(Medium), 4) == 1400.0
    ensures CalculatePrice(Some(Medium), 4) == 882.0
  {
  }

  /** `UPSELLS.find(u => u.id === id)`: the first catalogue entry with that id. */
  function FindUpsell(id: string): (r: Option<Upsell>)
    ensures r.Some? <==> exists k :: 0 <= k < |Upsells| && Upsells[k].id == id
    ensures r.Some? ==> r.value in Upsells && r.value.id == id
  {
    FindIn(Upsells, id)
  }

  function FindIn(catalogue: seq<Upsell>, id: string): (r: Option<Upsell>)
    ensures r.Some? <==> exists k :: 0 <= k < |catalogue| && catalogue[k].id == id
    ensures r.Some? ==> r.value in catalogue && r.value.id == id
  {
    if catalogue == [] then None
    else if catalogue[0].id == id then Some(catalogue[0])
    else FindIn(catalogue[1..], id)
  }

  /** What one selected add-on id adds to the total: something exactly
      when the id is in the catalogue, and never more than the dearest
      add-on. */
  function UpsellPrice(id: string, numLanguages: nat): (p: nat)
    ensures p == 0 <==> FindUpsell(id).None?
    ensures p <= 249
  {
    assert forall u :: u in Upsells ==> 0 < u.price <= 249 && (u.id == LaunchPack ==> 0 < u.priceAll <= 249);
    match FindUpsell(id)
    case None => 0
    case Some(u) => if u.id == LaunchPack then (if numLanguages > 1 then u.priceAll else u.price) else u.price
  }

  /** The prices of the catalogue entries, as the page advertises them. */
  lemma UpsellPrices(n: nat)
    ensures UpsellPrice(LaunchPack, n) == if n > 1 then 49 else 29
    ensures UpsellPrice("newsletter", n) == 99
    ensures UpsellPrice("author-list", n) == 149
    ensures UpsellPrice("full-promo", n) == 249
  {
    assert Upsells[0].id == LaunchPack;
    assert Upsells[1].id == "newsletter";
    assert Upsells[2].id == "author-list";
    assert Upsells[3].id == "full-promo";
  }

  /** An id outside the catalogue adds nothing. */
  lemma UnknownUpsellIsFree(id: string, n: nat)
    requires id != LaunchPack && id != "newsletter" && id != "author-list" && id != "full-promo"
    ensures UpsellPrice(id, n) == 0
  {
  }

  /** The part of `UpsellPrice(id, n)` that the catalogue entry `entry` accounts for. */
  function EntryShare(id: string, entry: string, n: nat): nat {
    if id == entry then UpsellPrice(entry, n) else 0
  }

  lemma UpsellPriceByEntry(id: string, n: nat)
    ensures UpsellPrice(id, n) == EntryShare(id, LaunchPack, n) + EntryShare(id, "newsletter", n)
      + EntryShare(id, "author-list", n) + EntryShare(id, "full-promo", n)
  {
    if id != LaunchPack && id != "newsletter" && id != "author-list" && id != "full-promo" {
      UnknownUpsellIsFree(id, n);
    }
  }

  /** `selectedUpsells.reduce(...)`: the running total over the selected
      ids, taken from the left. */
  function UpsellTotal(selected: seq<string>, numLanguages: nat): (total: nat)
    ensures total <= 249 * |selected|
    ensures total == 0 <==> forall i :: 0 <= i < |selected| ==> FindUpsell(selected[i]).None?
  {
    if selected == [] then 0
    else
      var init := selected[..|selected| - 1];
      assert forall i :: 0 <= i < |init| ==> init[i] == selected[i];
      UpsellTotal(init, numLanguages) + UpsellPrice(selected[|selected| - 1], numLanguages)
  }

  /** The total over a concatenation is the sum of the totals. */
  lemma {:induction false} UpsellTotalAppend(a: seq<string>, b: seq<string>, n: nat)
    ensures UpsellTotal(a + b, n) == UpsellTotal(a, n) + UpsellTotal(b, n)
    decreases |b|
  {
    if b == [] {
      assert a + b == a;
    } else {
      var b' := b[..|b| - 1];
      assert (a + b)[..|a + b| - 1] == a + b';
      UpsellTotalAppend(a, b', n);
    }
  }

  /** What a selection pays for one catalogue entry: its price if its id is
      selected, nothing otherwise. */
  function Charged(selected: seq<string>, id: string, n: nat): nat {
    if id in selected then UpsellPrice(id, n) else 0
  }

  /** A reference definition of the add-on total for a selection without
      repeats: one charge per catalogue entry that is selected. */
  function SelectionTotal(selected: seq<string>, n: nat): nat {
    Charged(selected, LaunchPack, n) + Charged(selected, "newsletter", n)
      + Charged(selected, "author-list", n) + Charged(selected, "full-promo", n)
  }

  predicate NoDuplicates<T(==)>(s: seq<T>) {
    forall i, j :: 0 <= i < j < |s| ==> s[i] != s[j]
  }

  /** For a selection without repeats (which the toggles guarantee, see
      ToggleKeepsNoDuplicates) the running total equals one charge per
      selected catalogue entry, unknown ids adding nothing. */
  lemma {:induction false} UpsellTotalIsSelectionTotal(selected: seq<string>, n: nat)
    requires NoDuplicates(selected)
    ensures UpsellTotal(selected, n) == SelectionTotal(selected, n)
    decreases |selected|
  {
    if selected != [] {
      var init := selected[..|selected| - 1];
      var x := selected[|selected| - 1];
      assert selected == init + [x];
      assert x !in init;
      assert NoDuplicates(init) by {
        forall i, j | 0 <= i < j < |init| ensures init[i] != init[j] {
          assert init[i] == selected[i] && init[j] == selected[j];
        }
      }
      UpsellTotalIsSelectionTotal(init, n);
      ChargedAfterAppend(init, x, LaunchPack, n);
      ChargedAfterAppend(init, x, "newsletter", n);
      ChargedAfterAppend(init, x, "author-list", n);
      ChargedAfterAppend(init, x, "full-promo", n);
      UpsellPriceByEntry(x, n);
    }
  }

  lemma ChargedAfterAppend(init: seq<string>, x: string, entry: string, n: nat)
    requires x !in init
    ensures Charged(init + [x], entry, n) == Charged(init, entry, n) + EntryShare(x, entry, n)
  {
    assert entry in init + [x] <==> entry in init || entry == x;
  }

  /** A selection without repeats never costs more than all four add-ons. */
  lemma UpsellTotalBound(selected: seq<string>, n: nat)
    requires NoDuplicates(selected)
    ensures UpsellTotal(selected, n) <= 49 + 99 + 149 + 249
  {
    UpsellTotalIsSelectionTotal(selected, n);
    UpsellPrices(n);
  }

  /** What the customer pays on the page: translation plus add-ons. */
  function CalculateTotal(tier: Option<Tier>, languages: seq<string>, upsells: seq<string>): (r: real)
    ensures r >= CalculatePrice(tier, |languages|)
    ensures r - CalculatePrice(tier, |languages|) == UpsellTotal(upsells, |languages|) as real
  {
    CalculatePrice(tier, |languages|) + UpsellTotal(upsells, |languages|) as real
  }

  /** `prev.filter(c => c !== x)`: every element except the occurrences of
      `x`, in their original order. */
  function RemoveAll(s: seq<string>, x: string): (r: seq<string>)
    ensures x !in r
    ensures forall y :: y != x ==> (y in r <==> y in s)
    ensures forall y :: y != x ==> multiset(r)[y] == multiset(s)[y]
    ensures |r| <= |s|
  {
    if s == [] then []
    else
      assert s == [s[0]] + s[1..];
      if s[0] == x then RemoveAll(s[1..], x)
      else [s[0]] + RemoveAll(s[1..], x)
  }

  /** `toggleLanguage` and `toggleUpsell`: drop a code that is present,
      append one that is absent. */
  function Toggle(s: seq<string>, x: string): (r: seq<string>)
    ensures x in s ==> r == RemoveAll(s, x)
    ensures x in s ==> x !in r && forall y :: y != x ==> (y in r <==> y in s) && multiset(r)[y] == multiset(s)[y]
    ensures x !in s ==> r == s + [x]
  {
    if x in s then RemoveAll(s, x) else s + [x]
  }

  /** Removing an element that is absent changes nothing. */
  lemma {:induction false} RemoveAllAbsent(s: seq<string>, x: string)
    requires x !in s
    ensures RemoveAll(s, x) == s
  {
    if s != [] {
      RemoveAllAbsent(s[1..], x);
    }
  }

  /** Removing a value from a list with an appended copy of it: the
      list itself, when it did not hold the value. */
  lemma RemoveAllAppended(s: seq<string>, x: string)
    requires x !in s
    ensures RemoveAll(s + [x], x) == s
  {
    RemoveAllSplit(s, [x], x);
    RemoveAllAbsent(s, x);
  }

  /** Filtering keeps order: the filter of two lists in a row is the
      filter of the first followed by the filter of the second ... */
  lemma {:induction false} RemoveAllSplit(a: seq<string>, b: seq<string>, x: string)
    ensures RemoveAll(a + b, x) == RemoveAll(a, x) + RemoveAll(b, x)
  {
    if a == [] {
      assert a + b == b;
    } else {
      assert (a + b)[1..] == a[1..] + b;
      RemoveAllSplit(a[1..], b, x);
    }
  }

  /** ... and of one element, that element unless it is the one removed.
      Together these fix the filter of every list. */
  lemma RemoveAllSingle(y: string, x: string)
    ensures RemoveAll([y], x) == if y == x then [] else [y]
  {
    assert [y][1..] == [];
  }

  /** Toggling an absent code twice gives back the original list. */
  lemma ToggleTwiceRestores(s: seq<string>, x: string)
    requires x !in s
    ensures Toggle(Toggle(s, x), x) == s
  {
    RemoveAllAppended(s, x);
  }

  /** Removing keeps the other elements' order and drops no repeats-free property. */
  lemma {:induction false} RemoveAllKeepsNoDuplicates(s: seq<string>, x: string)
    requires NoDuplicates(s)
    ensures NoDuplicates(RemoveAll(s, x))
  {
    if s != [] {
      assert NoDuplicates(s[1..]) by {
        forall i, j | 0 <= i < j < |s[1..]| ensures s[1..][i] != s[1..][j] {
          assert s[1..][i] == s[i + 1] && s[1..][j] == s[j + 1];
        }
      }
      RemoveAllKeepsNoDuplicates(s[1..], x);
      if s[0] != x {
        var r := [s[0]] + RemoveAll(s[1..], x);
        assert s[0] !in s[1..];
        assert s[0] !in RemoveAll(s[1..], x);
        forall i, j | 0 <= i < j < |r| ensures r[i] != r[j] {
          if i == 0 {
            assert r[j] in RemoveAll(s[1..], x);
          } else {
            assert r[i] == RemoveAll(s[1..], x)[i - 1];
          }
        }
      }
    }
  }

  /** A selection without repeats stays without repeats after a toggle. */
  lemma ToggleKeepsNoDuplicates(s: seq<string>, x: string)
    requires NoDuplicates(s)
    ensures NoDuplicates(Toggle(s, x))
  {
    if x in s {
      RemoveAllKeepsNoDuplicates(s, x);
    }
  }

  /** `selectAllCore`: the codes of the four core languages, in catalogue order. */
  function SelectAllCore(): (r: seq<string>)
    ensures r == ["es", "fr", "de", "pt"]
    ensures NoDuplicates(r)
  {
    seq(|CoreLanguages|, i requires 0 <= i < |CoreLanguages| => CoreLanguages[i].code)
  }
}
