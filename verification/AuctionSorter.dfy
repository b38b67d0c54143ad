/** The multi-column comparator of auction listings, and the proof that it is a strict weak order
    as section 25.4 of ISO/IEC 14882:2011 demands of an argument to std::sort. */
module AuctionSorter {

  const MAX_AUCTION_SORT: nat := 12
  const AUCTION_SORT_REVERSED: nat := 16

  datatype Prototype = Prototype(requiredLevel: nat, quality: nat, name: seq<nat>)

  datatype MaybePrototype = NoPrototype | Found(proto: Prototype)

  /** What the comparator reads of an auction entry; texts are sequences of code units, the name
      is the one in the viewer's language. */
  datatype Entry = Entry(
    prototype: MaybePrototype, buyout: nat, bid: nat, startbid: nat, expireTime: int, bidder: nat,
    ownerName: seq<nat>, itemCount: nat)

  /** A sort specification: one byte for each position, 12 ends the list. */
  type SortSpec = s: seq<nat> | |s| == MAX_AUCTION_SORT witness seq(12, i => 12)

  // ----- single columns -----

  function Compare(x: int, y: int): int {
    if x < y then -1 else if x > y then 1 else 0
  }

  /** std::string::compare: the first difference decides, then the length. */
  function CompareText(s: seq<nat>, t: seq<nat>): int {
    if s == [] then (if t == [] then 0 else -1)
    else if t == [] then 1
    else if s[0] != t[0] then Compare(s[0], t[0])
    else CompareText(s[1..], t[1..])
  }

  function Price(e: Entry): nat {
    if e.bid != 0 then e.bid else e.startbid
  }

  function ComparePrototypes(column: nat, p: Prototype, q: Prototype): int {
    if column == 0 then Compare(p.requiredLevel, q.requiredLevel)
    else if column == 1 then Compare(p.quality, q.quality)
    else CompareText(p.name, q.name)
  }

  predicate NeedsPrototype(column: nat) { column == 0 || column == 1 || column == 5 }

  function CompareAuctionEntry(column: nat, a: Entry, b: Entry): int {
    if NeedsPrototype(column) then
      if a.prototype.NoPrototype? || b.prototype.NoPrototype? then 0
      else ComparePrototypes(column, a.prototype.proto, b.prototype.proto)
    else if column == 2 then
      if a.buyout != b.buyout then Compare(a.buyout, b.buyout) else Compare(a.bid, b.bid)
    else if column == 3 then Compare(a.expireTime, b.expireTime)
    else if column == 4 then Compare(a.bidder, b.bidder)
    else if column == 6 then
      if Price(a) != Price(b) then Compare(Price(a), Price(b)) else Compare(a.buyout, b.buyout)
    else if column == 7 then CompareText(a.ownerName, b.ownerName)
    else if column == 8 then Compare(Price(a), Price(b))
    else if column == 9 then Compare(a.itemCount, b.itemCount)
    else if column == 10 then Compare(a.buyout, b.buyout)
    else 0
  }

  predicate Reversed(s: nat) { s / AUCTION_SORT_REVERSED % 2 == 1 }

  /** The byte without its direction bit. */
  function Column(s: nat): nat {
    if Reversed(s) then s - AUCTION_SORT_REVERSED else s
  }

  function Directed(s: nat, a: Entry, b: Entry): int {
    if Reversed(s) then -CompareAuctionEntry(Column(s), a, b) else CompareAuctionEntry(Column(s), a, b)
  }

  // ----- the comparator -----

  predicate TiedUpTo(sort: SortSpec, i: nat, a: Entry, b: Entry)
    requires i <= MAX_AUCTION_SORT
  {
    forall j :: 0 <= j < i ==> sort[j] != MAX_AUCTION_SORT && Directed(sort[j], a, b) == 0
  }

  /** `a` comes before `b`: they tie in the first `i` columns and column `i` puts `a` first. */
  predicate DecidedAt(sort: SortSpec, i: nat, a: Entry, b: Entry) {
    i < MAX_AUCTION_SORT && TiedUpTo(sort, i, a, b) && sort[i] != MAX_AUCTION_SORT && Directed(sort[i], a, b) < 0
  }

  ghost predicate Before(sort: SortSpec, a: Entry, b: Entry) {
    exists i: nat :: DecidedAt(sort, i, a, b)
  }

  /** AuctionSorter::operator(). */
  method Less(sort: SortSpec, a: Entry, b: Entry) returns (less: bool)
    ensures less <==> Before(sort, a, b)
  {
    if sort[0] == MAX_AUCTION_SORT {
      return false;
    }
    for i := 0 to MAX_AUCTION_SORT
      invariant TiedUpTo(sort, i, a, b)
    {
      if sort[i] == MAX_AUCTION_SORT {
        return false;
      }
      var res := CompareAuctionEntry(Column(sort[i]), a, b);
      if res != 0 {
        assert DecidedAt(sort, i, a, b) <==> Directed(sort[i], a, b) < 0;
        return (res < 0) == !Reversed(sort[i]);
      }
    }
    return false;
  }

  // ----- the laws of one column -----

  lemma {:induction false} CompareTextLaws(s: seq<nat>, t: seq<nat>, u: seq<nat>)
    ensures CompareText(t, s) == -CompareText(s, t)
    ensures CompareText(s, t) == 0 <==> s == t
    ensures CompareText(s, t) <= 0 && CompareText(t, u) <= 0 ==> CompareText(s, u) <= 0
  {
    if s != [] && t != [] {
      CompareTextLaws(s[1..], t[1..], if u == [] then [] else u[1..]);
      assert s[0] == t[0] && s[1..] == t[1..] ==> s == t by {
        assert s == [s[0]] + s[1..] && t == [t[0]] + t[1..];
      }
    }
  }

  /** What `s` precedes `t` means without saying how to compute it. */
  ghost predicate Precedes(s: seq<nat>, t: seq<nat>) {
    exists k: nat :: FirstDifference(s, t, k)
  }

  predicate FirstDifference(s: seq<nat>, t: seq<nat>, k: nat) {
    k <= |s| && k < |t| && s[..k] == t[..k] && (k == |s| || s[k] < t[k])
  }

  lemma FirstDifferenceHead(s: seq<nat>, t: seq<nat>, k: nat)
    requires FirstDifference(s, t, k) && k > 0
    ensures s[0] == t[0]
  {
    assert s[..k][0] == s[0] && t[..k][0] == t[0];
  }

  lemma {:induction false} CompareTextIsLexicographic(s: seq<nat>, t: seq<nat>)
    ensures CompareText(s, t) < 0 <==> Precedes(s, t)
  {
    if s == [] || t == [] {
      if s == [] && t != [] { assert FirstDifference(s, t, 0); }
    } else if s[0] != t[0] {
      if s[0] < t[0] { assert FirstDifference(s, t, 0); }
      if Precedes(s, t) {
        var k: nat :| FirstDifference(s, t, k);
        if k > 0 { FirstDifferenceHead(s, t, k); }
      }
    } else {
      CompareTextIsLexicographic(s[1..], t[1..]);
      if Precedes(s, t) {
        var k: nat :| FirstDifference(s, t, k);
        assert k > 0;
        assert s[1..][..k - 1] == s[..k][1..] && t[1..][..k - 1] == t[..k][1..];
        assert FirstDifference(s[1..], t[1..], k - 1);
      }
      if Precedes(s[1..], t[1..]) {
        var k: nat :| FirstDifference(s[1..], t[1..], k);
        assert s[..k + 1] == [s[0]] + s[1..][..k] && t[..k + 1] == [t[0]] + t[1..][..k];
        assert FirstDifference(s, t, k + 1);
      }
    }
  }

  /** Comparing by one column is antisymmetric and transitive wherever every prototype is known. */
  lemma ColumnLaws(column: nat, a: Entry, b: Entry, c: Entry)
    requires a.prototype.Found? && b.prototype.Found? && c.prototype.Found?
    ensures CompareAuctionEntry(column, b, a) == -CompareAuctionEntry(column, a, b)
    ensures CompareAuctionEntry(column, a, b) <= 0 && CompareAuctionEntry(column, b, c) <= 0
            ==> CompareAuctionEntry(column, a, c) <= 0
  {
    if column == 5 {
      CompareTextLaws(a.prototype.proto.name, b.prototype.proto.name, c.prototype.proto.name);
      hide CompareText;
    } else if column == 7 {
      CompareTextLaws(a.ownerName, b.ownerName, c.ownerName);
      hide CompareText;
    } else {
      hide CompareText;
    }
  }

  lemma DirectedLaws(s: nat, a: Entry, b: Entry, c: Entry)
    requires a.prototype.Found? && b.prototype.Found? && c.prototype.Found?
    ensures Directed(s, b, a) == -Directed(s, a, b)
    ensures Directed(s, a, b) <= 0 && Directed(s, b, c) <= 0 ==> Directed(s, a, c) <= 0
    ensures Directed(s, a, b) <= 0 && Directed(s, b, c) <= 0 && Directed(s, a, c) == 0
            ==> Directed(s, a, b) == 0 && Directed(s, b, c) == 0
  {
    ColumnLaws(Column(s), a, b, c);
    ColumnLaws(Column(s), b, c, a);
    ColumnLaws(Column(s), c, a, b);
    ColumnLaws(Column(s), c, b, a);
    ColumnLaws(Column(s), b, a, c);
    ColumnLaws(Column(s), a, c, b);
  }

  // ----- the strict weak order -----

  /** The comparator as a sign: the first column that differs, or 0. */
  function Sign(sort: SortSpec, i: nat, a: Entry, b: Entry): int
    requires i <= MAX_AUCTION_SORT
    decreases MAX_AUCTION_SORT - i
  {
    if i == MAX_AUCTION_SORT || sort[i] == MAX_AUCTION_SORT then 0
    else if Directed(sort[i], a, b) != 0 then Directed(sort[i], a, b)
    else Sign(sort, i + 1, a, b)
  }

  lemma {:induction false} SignDecides(sort: SortSpec, i: nat, a: Entry, b: Entry)
    requires i <= MAX_AUCTION_SORT && TiedUpTo(sort, i, a, b)
    ensures Sign(sort, i, a, b) < 0 <==> Before(sort, a, b)
    decreases MAX_AUCTION_SORT - i
  {
    if i == MAX_AUCTION_SORT || sort[i] == MAX_AUCTION_SORT {
    } else if Directed(sort[i], a, b) != 0 {
      assert DecidedAt(sort, i, a, b) <==> Directed(sort[i], a, b) < 0;
    } else {
      SignDecides(sort, i + 1, a, b);
    }
  }

  lemma {:induction false} SignLaws(sort: SortSpec, i: nat, a: Entry, b: Entry, c: Entry)
    requires i <= MAX_AUCTION_SORT
    requires a.prototype.Found? && b.prototype.Found? && c.prototype.Found?
    ensures Sign(sort, i, b, a) == -Sign(sort, i, a, b)
    ensures Sign(sort, i, a, b) <= 0 && Sign(sort, i, b, c) <= 0 ==> Sign(sort, i, a, c) <= 0
    ensures Sign(sort, i, a, b) <= 0 && Sign(sort, i, b, c) <= 0 && Sign(sort, i, a, c) == 0
            ==> Sign(sort, i, a, b) == 0 && Sign(sort, i, b, c) == 0
    decreases MAX_AUCTION_SORT - i
  {
    hide Directed, Column;
    if i == MAX_AUCTION_SORT || sort[i] == MAX_AUCTION_SORT {
    } else {
      SignLaws(sort, i + 1, a, b, c);
      DirectedLaws(sort[i], a, b, c);
    }
  }

  ghost predicate Incomparable(sort: SortSpec, a: Entry, b: Entry) {
    !Before(sort, a, b) && !Before(sort, b, a)
  }

  ghost predicate StrictWeakOrder(sort: SortSpec, entries: set<Entry>) {
    && (forall a :: a in entries ==> !Before(sort, a, a))
    && (forall a, b :: a in entries && b in entries && Before(sort, a, b) ==> !Before(sort, b, a))
    && (forall a, b, c :: a in entries && b in entries && c in entries ==>
      Before(sort, a, b) && Before(sort, b, c) ==> Before(sort, a, c))
    && (forall a, b, c :: a in entries && b in entries && c in entries ==>
      Incomparable(sort, a, b) && Incomparable(sort, b, c) ==> Incomparable(sort, a, c))
  }

  lemma OrderLaws(sort: SortSpec, a: Entry, b: Entry, c: Entry)
    requires a.prototype.Found? && b.prototype.Found? && c.prototype.Found?
    ensures !Before(sort, a, a)
    ensures Before(sort, a, b) ==> !Before(sort, b, a)
    ensures Before(sort, a, b) && Before(sort, b, c) ==> Before(sort, a, c)
    ensures Incomparable(sort, a, b) && Incomparable(sort, b, c) ==> Incomparable(sort, a, c)
  {
    hide Before, Sign;
    SignDecides(sort, 0, a, a); SignDecides(sort, 0, a, b); SignDecides(sort, 0, b, a);
    SignDecides(sort, 0, b, c); SignDecides(sort, 0, c, b); SignDecides(sort, 0, a, c); SignDecides(sort, 0, c, a);
    SignLaws(sort, 0, a, a, a);
    SignLaws(sort, 0, a, b, c);
    SignLaws(sort, 0, b, c, a);
    SignLaws(sort, 0, c, a, b);
    SignLaws(sort, 0, c, b, a);
  }

  /** Every specification of normal and reversed columns orders entries with prototypes strictly weakly. */
  lemma SorterIsStrictWeakOrder(sort: SortSpec, entries: set<Entry>)
    requires forall e :: e in entries ==> e.prototype.Found?
    ensures StrictWeakOrder(sort, entries)
  {
    hide Before, Incomparable;
    forall a, b, c | a in entries && b in entries && c in entries
      ensures !Before(sort, a, a)
      ensures Before(sort, a, b) ==> !Before(sort, b, a)
      ensures Before(sort, a, b) && Before(sort, b, c) ==> Before(sort, a, c)
      ensures Incomparable(sort, a, b) && Incomparable(sort, b, c) ==> Incomparable(sort, a, c)
    {
      OrderLaws(sort, a, b, c);
    }
  }

  // ----- a missing prototype -----

  predicate SingleColumn(sort: SortSpec, column: nat) {
    sort[0] != MAX_AUCTION_SORT && Column(sort[0]) == column && sort[1] == MAX_AUCTION_SORT
  }

  lemma SingleColumnBefore(sort: SortSpec, column: nat, a: Entry, b: Entry)
    requires SingleColumn(sort, column)
    ensures Before(sort, a, b) <==> Directed(sort[0], a, b) < 0
  {
    SignDecides(sort, 0, a, b);
  }

  predicate AllTie(column: nat, entries: set<Entry>) {
    forall a, b :: a in entries && b in entries ==> CompareAuctionEntry(column, a, b) == 0
  }

  /** Sorting by a column that reads prototypes is a strict weak order exactly when no prototype
      is missing or the column cannot tell any two entries apart. */
  lemma MissingPrototypeBreaksOrder(sort: SortSpec, column: nat, entries: set<Entry>)
    requires NeedsPrototype(column) && SingleColumn(sort, column)
    ensures StrictWeakOrder(sort, entries)
            <==> (forall e :: e in entries ==> e.prototype.Found?) || AllTie(column, entries)
  {
    hide Before, CompareAuctionEntry, Sign;
    forall a: Entry, b: Entry
      ensures Before(sort, a, b) <==> Directed(sort[0], a, b) < 0
    {
      SingleColumnBefore(sort, column, a, b);
    }
    if (forall e :: e in entries ==> e.prototype.Found?) {
      SorterIsStrictWeakOrder(sort, entries);
    } else if !AllTie(column, entries) {
      var e :| e in entries && !e.prototype.Found?;
      var a, b :| a in entries && b in entries && CompareAuctionEntry(column, a, b) != 0;
      WitnessOfMissing(column, a, b, e);
      assert Incomparable(sort, a, e) && Incomparable(sort, e, b) && !Incomparable(sort, a, b);
    }
  }

  lemma WitnessOfMissing(column: nat, a: Entry, b: Entry, e: Entry)
    requires NeedsPrototype(column) && e.prototype.NoPrototype?
    requires CompareAuctionEntry(column, a, b) != 0
    ensures CompareAuctionEntry(column, b, a) == -CompareAuctionEntry(column, a, b)
    ensures CompareAuctionEntry(column, a, e) == CompareAuctionEntry(column, e, a) == 0
    ensures CompareAuctionEntry(column, b, e) == CompareAuctionEntry(column, e, b) == 0
  {
    ColumnLaws(column, a, b, a);
  }

  // ----- a missing prototype among several columns -----

  /** The sign when the columns that read prototypes are passed over. */
  function Stripped(sort: SortSpec, i: nat, a: Entry, b: Entry): int
    requires i <= MAX_AUCTION_SORT
    decreases MAX_AUCTION_SORT - i
  {
    if i == MAX_AUCTION_SORT || sort[i] == MAX_AUCTION_SORT then 0
    else if !NeedsPrototype(Column(sort[i])) && Directed(sort[i], a, b) != 0 then Directed(sort[i], a, b)
    else Stripped(sort, i + 1, a, b)
  }

  /** A column that reads no prototype obeys the laws of ColumnLaws on all entries. */
  lemma PlainColumnLaws(s: nat, a: Entry, b: Entry, c: Entry)
    requires !NeedsPrototype(Column(s))
    ensures Directed(s, b, a) == -Directed(s, a, b)
    ensures Directed(s, a, b) <= 0 && Directed(s, b, c) <= 0 ==> Directed(s, a, c) <= 0
    ensures Directed(s, a, b) <= 0 && Directed(s, b, c) <= 0 && Directed(s, a, c) == 0
            ==> Directed(s, a, b) == 0 && Directed(s, b, c) == 0
  {
    var known := Found(Prototype(0, 0, []));
    SameWithPrototype(s, a, b, known);
    SameWithPrototype(s, b, a, known);
    SameWithPrototype(s, b, c, known);
    SameWithPrototype(s, a, c, known);
    DirectedLaws(s, a.(prototype := known), b.(prototype := known), c.(prototype := known));
  }

  lemma SameWithPrototype(s: nat, a: Entry, b: Entry, p: MaybePrototype)
    requires !NeedsPrototype(Column(s))
    ensures Directed(s, a, b) == Directed(s, a.(prototype := p), b.(prototype := p))
  {
  }

  lemma {:induction false} StrippedLaws(sort: SortSpec, i: nat, a: Entry, b: Entry, c: Entry)
    requires i <= MAX_AUCTION_SORT
    ensures Stripped(sort, i, b, a) == -Stripped(sort, i, a, b)
    ensures Stripped(sort, i, a, b) <= 0 && Stripped(sort, i, b, c) <= 0 ==> Stripped(sort, i, a, c) <= 0
    ensures Stripped(sort, i, a, b) <= 0 && Stripped(sort, i, b, c) <= 0 && Stripped(sort, i, a, c) == 0
            ==> Stripped(sort, i, a, b) == 0 && Stripped(sort, i, b, c) == 0
    decreases MAX_AUCTION_SORT - i
  {
    hide Directed, Column, NeedsPrototype;
    if i == MAX_AUCTION_SORT || sort[i] == MAX_AUCTION_SORT {
    } else {
      StrippedLaws(sort, i + 1, a, b, c);
      if !NeedsPrototype(Column(sort[i])) { PlainColumnLaws(sort[i], a, b, c); }
    }
  }

  /** An entry without prototype is compared by the other columns only; and entries that tie in
      all columns tie in those. */
  lemma {:induction false} SignStripped(sort: SortSpec, i: nat, a: Entry, b: Entry)
    requires i <= MAX_AUCTION_SORT
    ensures a.prototype.NoPrototype? || b.prototype.NoPrototype? ==> Sign(sort, i, a, b) == Stripped(sort, i, a, b)
    ensures Sign(sort, i, a, b) == 0 ==> Stripped(sort, i, a, b) == 0
    decreases MAX_AUCTION_SORT - i
  {
    hide Column;
    if i < MAX_AUCTION_SORT && sort[i] != MAX_AUCTION_SORT { SignStripped(sort, i + 1, a, b); }
  }

  /** The prototype columns put `a` before `b` against the other columns, and between the two,
      by the other columns, lies an entry without prototype. */
  predicate Straddles(sort: SortSpec, a: Entry, b: Entry, e: Entry) {
    e.prototype.NoPrototype? && Sign(sort, 0, a, b) < 0 && Stripped(sort, 0, b, e) <= 0 && Stripped(sort, 0, e, a) <= 0
  }

  /** For every specification: the comparator is a strict weak order exactly when the prototype
      columns reorder no two entries around one whose prototype is missing. */
  lemma SorterIsOrderIff(sort: SortSpec, entries: set<Entry>)
    ensures StrictWeakOrder(sort, entries)
            <==> forall a, b, e :: a in entries && b in entries && e in entries ==> !Straddles(sort, a, b, e)
  {
    hide Before, Sign, Stripped, Incomparable;
    if forall a, b, e :: a in entries && b in entries && e in entries ==> !Straddles(sort, a, b, e) {
      forall a, b, c | a in entries && b in entries && c in entries
        ensures TripleLaws(sort, a, b, c)
      {
        UnstraddledLaws(sort, a, b, c);
      }
    } else {
      var a, b, e :| a in entries && b in entries && e in entries && Straddles(sort, a, b, e);
      StraddleBreaks(sort, a, b, e);
    }
  }

  /** What a strict weak order says of three entries. */
  ghost predicate TripleLaws(sort: SortSpec, a: Entry, b: Entry, c: Entry) {
    && !Before(sort, a, a)
    && (Before(sort, a, b) ==> !Before(sort, b, a))
    && (Before(sort, a, b) && Before(sort, b, c) ==> Before(sort, a, c))
    && (Incomparable(sort, a, b) && Incomparable(sort, b, c) ==> Incomparable(sort, a, c))
  }

  lemma UnstraddledLaws(sort: SortSpec, a: Entry, b: Entry, c: Entry)
    requires forall x, y, e :: x in {a, b, c} && y in {a, b, c} && e in {a, b, c} ==> !Straddles(sort, x, y, e)
    ensures TripleLaws(sort, a, b, c)
  {
    hide TripleLaws, Straddles;
    if a.prototype.Found? && b.prototype.Found? && c.prototype.Found? {
      FoundLaws(sort, a, b, c);
    } else if Unknown(a, b) && Unknown(b, c) && Unknown(a, c) {
      UnknownLaws(sort, a, b, c);
    } else if c.prototype.NoPrototype? {
      OneMissing(sort, a, b, c);
    } else if b.prototype.NoPrototype? {
      OneMissing(sort, a, c, b);
    } else {
      OneMissing(sort, b, c, a);
    }
  }

  lemma FoundLaws(sort: SortSpec, a: Entry, b: Entry, c: Entry)
    requires a.prototype.Found? && b.prototype.Found? && c.prototype.Found?
    ensures TripleLaws(sort, a, b, c)
  {
    hide Before, Incomparable;
    OrderLaws(sort, a, b, c);
  }

  predicate Unknown(a: Entry, b: Entry) { a.prototype.NoPrototype? || b.prototype.NoPrototype? }

  /** Every pair lacks a prototype: only the other columns compare. */
  lemma UnknownLaws(sort: SortSpec, a: Entry, b: Entry, c: Entry)
    requires Unknown(a, b) && Unknown(b, c) && Unknown(a, c)
    ensures TripleLaws(sort, a, b, c)
  {
    hide Before, Sign, Stripped;
    Signs(sort, a, b);
    Signs(sort, b, c);
    Signs(sort, a, c);
    Signs(sort, a, a);
    StrippedLaws(sort, 0, a, b, c);
    StrippedLaws(sort, 0, b, c, a);
    StrippedLaws(sort, 0, c, a, b);
    StrippedLaws(sort, 0, c, b, a);
  }

  /** Only `e` lacks its prototype, and the other two do not straddle it. */
  lemma OneMissing(sort: SortSpec, a: Entry, b: Entry, e: Entry)
    requires e.prototype.NoPrototype? && !Straddles(sort, a, b, e) && !Straddles(sort, b, a, e)
    ensures TripleLaws(sort, a, b, e) && TripleLaws(sort, a, e, b) && TripleLaws(sort, e, a, b)
  {
    hide Before, Sign, Stripped;
    Signs(sort, a, b);
    Signs(sort, a, e);
    Signs(sort, b, e);
    Signs(sort, a, a);
    Signs(sort, e, e);
    StrippedLaws(sort, 0, a, b, e);
    StrippedLaws(sort, 0, b, a, e);
    StrippedLaws(sort, 0, e, a, b);
    StrippedLaws(sort, 0, e, b, a);
    StrippedLaws(sort, 0, a, e, b);
    StrippedLaws(sort, 0, b, e, a);
  }

  /** The two signs of a pair and what they decide. */
  lemma Signs(sort: SortSpec, a: Entry, b: Entry)
    ensures Before(sort, a, b) <==> Sign(sort, 0, a, b) < 0
    ensures Before(sort, b, a) <==> Sign(sort, 0, b, a) < 0
    ensures Sign(sort, 0, b, a) == -Sign(sort, 0, a, b)
    ensures a.prototype.NoPrototype? || b.prototype.NoPrototype? ==> Sign(sort, 0, a, b) == Stripped(sort, 0, a, b)
    ensures Sign(sort, 0, a, b) == 0 ==> Stripped(sort, 0, a, b) == 0
  {
    hide Before, Sign, Stripped;
    SignDecides(sort, 0, a, b);
    SignDecides(sort, 0, b, a);
    SignStripped(sort, 0, a, b);
    SignStripped(sort, 0, b, a);
    StrippedLaws(sort, 0, a, b, a);
    if a.prototype.Found? && b.prototype.Found? { SignLaws(sort, 0, a, b, a); }
  }

  lemma StraddleBreaks(sort: SortSpec, a: Entry, b: Entry, e: Entry)
    requires Straddles(sort, a, b, e)
    ensures !TripleLaws(sort, e, a, b) || !TripleLaws(sort, a, b, e) || !TripleLaws(sort, b, e, a)
  {
    hide Before, Sign, Stripped;
    Signs(sort, a, b);
    Signs(sort, b, e);
    Signs(sort, e, a);
  }

  /** The smallest case: equal buyouts, then the level, and one entry whose level is unknown. */
  lemma MissingPrototypeTriple(sort: SortSpec, a: Entry, b: Entry, e: Entry)
    requires sort[0] == 10 && sort[1] == 0 && sort[2] == MAX_AUCTION_SORT
    requires a.buyout == b.buyout == e.buyout && e.prototype.NoPrototype? && a.prototype.Found? && b.prototype.Found?
    requires a.prototype.proto.requiredLevel < b.prototype.proto.requiredLevel
    ensures !StrictWeakOrder(sort, {a, b, e})
  {
    assert Sign(sort, 2, a, b) == 0 && Sign(sort, 1, a, b) < 0 && Sign(sort, 0, a, b) == Sign(sort, 1, a, b);
    assert Stripped(sort, 2, b, e) == 0 && Stripped(sort, 1, b, e) == 0 && Stripped(sort, 0, b, e) == 0;
    assert Stripped(sort, 2, e, a) == 0 && Stripped(sort, 1, e, a) == 0 && Stripped(sort, 0, e, a) == 0;
    assert Straddles(sort, a, b, e);
    SorterIsOrderIff(sort, {a, b, e});
  }

  // ----- what each column sorts by -----

  /** `x` is smaller, or they are equal and `y` is smaller. */
  predicate Smaller(x: nat, x': nat, y: nat, y': nat) { x < x' || (x == x' && y < y') }

  lemma OneColumn(sort: SortSpec, a: Entry, b: Entry)
    requires sort[0] != MAX_AUCTION_SORT && sort[1] == MAX_AUCTION_SORT
    ensures Before(sort, a, b) <==> Directed(sort[0], a, b) < 0
  {
    SignDecides(sort, 0, a, b);
  }

  /** The whole comparator with one column: the field it sorts by. */
  lemma ColumnMeaning(sort: SortSpec, a: Entry, b: Entry)
    requires sort[0] < AUCTION_SORT_REVERSED && sort[1] == MAX_AUCTION_SORT
    ensures var known := a.prototype.Found? && b.prototype.Found?;
      var price, price' := if a.bid != 0 then a.bid else a.startbid, if b.bid != 0 then b.bid else b.startbid;
      Before(sort, a, b) <==>
        match sort[0]
        case 0 => known && a.prototype.proto.requiredLevel < b.prototype.proto.requiredLevel
        case 1 => known && a.prototype.proto.quality < b.prototype.proto.quality
        case 2 => Smaller(a.buyout, b.buyout, a.bid, b.bid)
        case 3 => a.expireTime < b.expireTime
        case 4 => a.bidder < b.bidder
        case 5 => known && Precedes(a.prototype.proto.name, b.prototype.proto.name)
        case 6 => Smaller(price, price', a.buyout, b.buyout)
        case 7 => Precedes(a.ownerName, b.ownerName)
        case 8 => price < price'
        case 9 => a.itemCount < b.itemCount
        case 10 => a.buyout < b.buyout
        case _ => false
  {
    if sort[0] == MAX_AUCTION_SORT {
      assert forall i: nat :: !DecidedAt(sort, i, a, b);
    } else {
      OneColumn(sort, a, b);
      CompareTextIsLexicographic(a.ownerName, b.ownerName);
      if a.prototype.Found? && b.prototype.Found? {
        CompareTextIsLexicographic(a.prototype.proto.name, b.prototype.proto.name);
      }
      hide Before, Precedes;
    }
  }

  /** The reversed bit exchanges the roles. */
  lemma ReversedMeaning(sort: SortSpec, reversed: SortSpec, a: Entry, b: Entry)
    requires sort[0] < AUCTION_SORT_REVERSED && reversed[0] == sort[0] + AUCTION_SORT_REVERSED
    requires sort[1] == reversed[1] == MAX_AUCTION_SORT
    ensures Before(reversed, a, b) <==> Before(sort, b, a)
  {
    OneColumn(reversed, a, b);
    if sort[0] == MAX_AUCTION_SORT {
      assert forall i: nat :: !DecidedAt(sort, i, b, a);
    } else {
      OneColumn(sort, b, a);
      ColumnAntisymmetric(sort[0], a, b);
      hide Before, CompareAuctionEntry;
    }
  }

  lemma ColumnAntisymmetric(column: nat, a: Entry, b: Entry)
    ensures CompareAuctionEntry(column, b, a) == -CompareAuctionEntry(column, a, b)
  {
    CompareTextLaws(a.ownerName, b.ownerName, []);
    if a.prototype.Found? && b.prototype.Found? {
      CompareTextLaws(a.prototype.proto.name, b.prototype.proto.name, []);
    }
  }

  /** Several columns: the first one decides, and the rest decide where it ties. */
  lemma FirstColumnDecides(sort: SortSpec, first: SortSpec, rest: SortSpec, a: Entry, b: Entry)
    requires sort[0] != MAX_AUCTION_SORT && first[0] == sort[0] && first[1] == MAX_AUCTION_SORT
    requires rest[MAX_AUCTION_SORT - 1] == MAX_AUCTION_SORT
    requires forall i :: 0 <= i < MAX_AUCTION_SORT - 1 ==> rest[i] == sort[i + 1]
    ensures Before(sort, a, b) <==> Before(first, a, b) || (!Before(first, b, a) && Before(rest, a, b))
  {
    OneColumn(first, a, b);
    OneColumn(first, b, a);
    SignDecides(sort, 0, a, b);
    SignDecides(rest, 0, a, b);
    SignShifts(sort, rest, 0, a, b);
    ColumnAntisymmetric(Column(sort[0]), a, b);
    hide Before, CompareAuctionEntry;
  }

  lemma {:induction false} SignShifts(sort: SortSpec, rest: SortSpec, i: nat, a: Entry, b: Entry)
    requires i < MAX_AUCTION_SORT && rest[MAX_AUCTION_SORT - 1] == MAX_AUCTION_SORT
    requires forall k :: 0 <= k < MAX_AUCTION_SORT - 1 ==> rest[k] == sort[k + 1]
    ensures Sign(rest, i, a, b) == Sign(sort, i + 1, a, b)
    decreases MAX_AUCTION_SORT - i
  {
    hide Directed;
    if i < MAX_AUCTION_SORT - 1 { SignShifts(sort, rest, i + 1, a, b); }
  }
}
