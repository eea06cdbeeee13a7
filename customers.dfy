/** The customer segmentation of the loyalty tab: payer names from the
    payment log are normalised, payments are aggregated per payer, and each
    payer is classified by value and recency. */
module Customers {
  import opened Values
  import opened Text

  // ---------------------------------------------------------------------------
  // Payer names

  /** The wallet and bank prefixes, removed in this order. */
  const Prefixes: seq<string> :=
    ["PLIN - ", "YAPE - ", "TRANSFERENCIA - ", "IZIPAY - ", "INTERBANK - ", "BCP - ", "PLIN", "YAPE"]

  const Unknown: string := "DESCONOCIDO"
  /** `"ANÓNIMO"`, with the capital O acute (U+00D3). */
  const Anonymous: string := "AN\U{D3}NIMO"

  /** The placeholder is the seven letters of `ANÓNIMO`. */
  lemma AnonymousLetters()
    ensures |Anonymous| == 7 && Anonymous[2] == '\U{D3}'
    ensures Anonymous == ['A', 'N', '\U{D3}', 'N', 'I', 'M', 'O']
  {
  }

  predicate NonEmptyPatterns(ps: seq<string>)
  {
    forall i :: 0 <= i < |ps| ==> |ps[i]| > 0
  }

  lemma PrefixesNonEmpty()
    ensures NonEmptyPatterns(Prefixes)
  {
  }

  /** Every prefix, in order, is removed everywhere it occurs and the result
      is stripped again. */
  function RemovePrefixes(n: string, ps: seq<string>): string
    requires NonEmptyPatterns(ps)
    decreases |ps|
  {
    if |ps| == 0 then n else RemovePrefixes(Strip(ReplaceAll(n, ps[0], "")), ps[1..])
  }

  /** `limpiar_nombre` as a function: a non-text origin is unknown; text is
      upper-cased and stripped, the prefixes go, and a result of two
      characters or fewer is anonymous. */
  function CleanName(v: Value): (r: string)
    ensures |r| > 2
    ensures !v.Text? ==> r == Unknown
  {
    if !v.Text? then Unknown
    else
      PrefixesNonEmpty();
      Finish(RemovePrefixes(Strip(Upper(v.s)), Prefixes))
  }

  /** A cleaned name longer than two characters is kept; any other is
      anonymous. */
  function Finish(n: string): (r: string)
    ensures |r| > 2
    ensures r == n <==> |n| > 2
    ensures |n| <= 2 ==> r == Anonymous
  {
    if |n| > 2 then n else Anonymous
  }

  /** `limpiar_nombre` as the source runs it: the name is upper-cased and
      stripped, then reassigned once per prefix. */
  method CleanPayerName(v: Value) returns (r: string)
    ensures r == CleanName(v)
  {
    if !v.Text? {
      return Unknown;
    }
    PrefixesNonEmpty();
    var nombre := RemovePatterns(Strip(Upper(v.s)), Prefixes);
    r := if |nombre| > 2 then nombre else Anonymous;
    assert r == Finish(nombre);
  }

  /** The loop over the prefixes: each pass replaces one pattern everywhere
      and strips the result. */
  method RemovePatterns(n: string, ps: seq<string>) returns (r: string)
    requires NonEmptyPatterns(ps)
    ensures r == RemovePrefixes(n, ps)
  {
    r := n;
    for k := 0 to |ps|
      invariant RemovePrefixes(n, ps) == RemovePrefixes(r, ps[k..])
    {
      assert ps[k..][1..] == ps[k + 1..];
      r := Strip(ReplaceAll(r, ps[k], ""));
    }
  }

  /** Removing prefixes keeps only characters of the input. */
  lemma {:induction false} RemovePrefixesChars(n: string, ps: seq<string>)
    requires NonEmptyPatterns(ps)
    ensures forall c :: c in RemovePrefixes(n, ps) ==> c in n
    decreases |ps|
  {
    if |ps| > 0 {
      var m := Strip(ReplaceAll(n, ps[0], ""));
      ReplaceAllChars(n, ps[0]);
      StripChars(ReplaceAll(n, ps[0], ""));
      RemovePrefixesChars(m, ps[1..]);
    }
  }

  /** Removing prefixes never lengthens the name. */
  lemma {:induction false} RemovePrefixesShrinks(n: string, ps: seq<string>)
    requires NonEmptyPatterns(ps)
    ensures |RemovePrefixes(n, ps)| <= |n|
    decreases |ps|
  {
    if |ps| > 0 {
      ReplaceAllShrinks(n, ps[0]);
      var t := ReplaceAll(n, ps[0], "");
      var i, j :| 0 <= i <= j <= |t| && Strip(t) == t[i..j];
      RemovePrefixesShrinks(Strip(t), ps[1..]);
    }
  }

  /** A stripped name with none of the patterns in it comes out unchanged. */
  lemma {:induction false} RemovePrefixesAbsent(n: string, ps: seq<string>)
    requires NonEmptyPatterns(ps)
    requires n == [] || (!IsSpace(n[0]) && !IsSpace(n[|n| - 1]))
    requires forall i :: 0 <= i < |ps| ==> !Contains(n, ps[i])
    ensures RemovePrefixes(n, ps) == n
    decreases |ps|
  {
    if |ps| > 0 {
      ReplaceAllAbsent(n, ps[0], "");
      StripStripped(n);
      RemovePrefixesAbsent(n, ps[1..]);
    }
  }

  /** Every prefix holds a dash or a 'P'. */
  lemma PrefixMarkers(i: nat)
    requires i < |Prefixes|
    ensures exists k :: 0 <= k < |Prefixes[i]| && (Prefixes[i][k] == '-' || Prefixes[i][k] == 'P')
  {
    if i <= 1 { assert Prefixes[i][5] == '-'; }
    else if i == 2 { assert Prefixes[i][14] == '-'; }
    else if i == 3 { assert Prefixes[i][7] == '-'; }
    else if i == 4 { assert Prefixes[i][10] == '-'; }
    else if i == 5 { assert Prefixes[i][4] == '-'; }
    else if i == 6 { assert Prefixes[i][0] == 'P'; }
    else { assert Prefixes[i][2] == 'P'; }
  }

  /** A name with neither a dash nor a 'P' holds no prefix. */
  lemma NoMarkerNoPrefix(n: string)
    requires '-' !in n && 'P' !in n
    ensures forall i :: 0 <= i < |Prefixes| ==> !Contains(n, Prefixes[i])
  {
    forall i | 0 <= i < |Prefixes| ensures !Contains(n, Prefixes[i]) {
      PrefixMarkers(i);
      var k :| 0 <= k < |Prefixes[i]| && (Prefixes[i][k] == '-' || Prefixes[i][k] == 'P');
      NotContainsMissingChar(n, Prefixes[i], k);
    }
  }

  /** Removing prefixes from an upper-case name leaves it upper case. */
  lemma RemovePrefixesUpper(n: string, ps: seq<string>)
    requires NonEmptyPatterns(ps) && NoAsciiLower(n)
    ensures NoAsciiLower(RemovePrefixes(n, ps))
  {
    RemovePrefixesChars(n, ps);
    var m := RemovePrefixes(n, ps);
    forall i | 0 <= i < |m| ensures !('a' <= m[i] <= 'z') {
      assert m[i] in m;
      var j :| 0 <= j < |n| && n[j] == m[i];
    }
  }

  /** Every cleaned name is upper case (no ASCII lower-case letter). */
  lemma CleanNameUpper(v: Value)
    ensures NoAsciiLower(CleanName(v))
  {
    MarkersUpper();
    if v.Text? {
      PrefixesNonEmpty();
      StripUpperNoLower(v.s);
      RemovePrefixesUpper(Strip(Upper(v.s)), Prefixes);
    }
  }

  lemma MarkersUpper()
    ensures NoAsciiLower(Unknown) && NoAsciiLower(Anonymous)
  {
  }

  /** A name of at most two characters after upper-casing and stripping is
      anonymous. */
  lemma ShortNameAnonymous(s: string)
    requires |Strip(Upper(s))| <= 2
    ensures CleanName(Text(s)) == Anonymous
  {
    PrefixesNonEmpty();
    RemovePrefixesShrinks(Strip(Upper(s)), Prefixes);
  }

  /** A payer typed as `anónimo` and one typed as `ab` both end up under
      the placeholder, so they form one customer. */
  lemma AnonymousMerges()
    ensures CleanName(Text("an\U{F3}nimo")) == Anonymous
    ensures CleanName(Text("ab")) == Anonymous
  {
    AccentedAnonymous();
    TwoLetters();
    ShortNameAnonymous("ab");
  }

  lemma AccentedAnonymous()
    ensures CleanName(Text("an\U{F3}nimo")) == Anonymous
  {
    var s := "an\U{F3}nimo";
    AccentedUpper();
    AnonymousLetters();
    StripStripped(Anonymous);
    assert Strip(Upper(s)) == Anonymous;
    AnonymousPlain();
    PlainName(s);
  }

  lemma AnonymousPlain()
    ensures '-' !in Anonymous && 'P' !in Anonymous
  {
    AnonymousLetters();
  }

  lemma AccentedUpper()
    ensures Upper("an\U{F3}nimo") == Anonymous
  {
    AnonymousLetters();
  }

  lemma TwoLetters()
    ensures |Strip(Upper("ab"))| <= 2
  {
    StripChars(Upper("ab"));
  }

  /** A name with no dash and no 'P' is only upper-cased and stripped. */
  lemma PlainName(s: string)
    requires '-' !in Strip(Upper(s)) && 'P' !in Strip(Upper(s)) && |Strip(Upper(s))| > 2
    ensures CleanName(Text(s)) == Strip(Upper(s))
  {
    PrefixesNonEmpty();
    NoMarkerNoPrefix(Strip(Upper(s)));
    RemovePrefixesAbsent(Strip(Upper(s)), Prefixes);
  }

  /** A stripped name led by the first pattern, and holding none of the
      patterns after it, loses exactly that lead. */
  lemma {:induction false} LeadingPatternRemoved(u: string, ps: seq<string>)
    requires NonEmptyPatterns(ps) && |ps| > 0
    requires |u| > 0 && !IsSpace(u[0]) && !IsSpace(u[|u| - 1])
    requires forall i :: 0 <= i < |ps| ==> !Contains(u, ps[i])
    ensures RemovePrefixes(ps[0] + u, ps) == u
  {
    TailPatternsAbsent(u, ps);
    FirstPass(u, ps[0]);
    var tail := ps[1..];
    calc {
      RemovePrefixes(ps[0] + u, ps);
      RemovePrefixes(Strip(ReplaceAll(ps[0] + u, ps[0], "")), tail);
      RemovePrefixes(u, tail);
      { RemovePrefixesAbsent(u, tail); }
      u;
    }
  }

  /** One pass over a stripped name led by the pattern it removes. */
  lemma FirstPass(u: string, p: string)
    requires |p| > 0 && !Contains(u, p)
    requires |u| > 0 && !IsSpace(u[0]) && !IsSpace(u[|u| - 1])
    ensures Strip(ReplaceAll(p + u, p, "")) == u
  {
    ReplaceAllPrefix(p, u, "");
    ReplaceAllAbsent(u, p, "");
    assert ReplaceAll(p + u, p, "") == u;
    StripStripped(u);
  }

  lemma TailPatternsAbsent(u: string, ps: seq<string>)
    requires NonEmptyPatterns(ps) && |ps| > 0
    requires forall i :: 0 <= i < |ps| ==> !Contains(u, ps[i])
    ensures NonEmptyPatterns(ps[1..])
    ensures forall i :: 0 <= i < |ps[1..]| ==> !Contains(u, ps[1..][i])
  {
    assert forall i :: 0 <= i < |ps[1..]| ==> ps[1..][i] == ps[i + 1];
  }

  lemma UpperWallet()
    ensures Upper("plin - ") == Prefixes[0]
  {
  }

  /** A "plin - " payment from a plain name is credited to that name. */
  lemma WalletPrefixRemoved(rest: string)
    requires |Upper(rest)| > 2 && '-' !in Upper(rest) && 'P' !in Upper(rest)
    requires !IsSpace(Upper(rest)[0]) && !IsSpace(Upper(rest)[|Upper(rest)| - 1])
    ensures CleanName(Text("plin - " + rest)) == Upper(rest)
  {
    PrefixesNonEmpty();
    var u := Upper(rest);
    WalletNormalized(rest);
    NoMarkerNoPrefix(u);
    LeadingPatternRemoved(u, Prefixes);
  }

  lemma WalletNormalized(rest: string)
    requires |Upper(rest)| > 0
    requires !IsSpace(Upper(rest)[|Upper(rest)| - 1])
    ensures Strip(Upper("plin - " + rest)) == Prefixes[0] + Upper(rest)
  {
    var u := Upper(rest);
    UpperConcat("plin - ", rest);
    UpperWallet();
    var w := Prefixes[0] + u;
    assert w[0] == 'P' && w[|w| - 1] == u[|u| - 1];
    StripStripped(w);
  }

  // ---------------------------------------------------------------------------
  // Aggregation per payer

  /** One payment of the log, its payer already cleaned. */
  datatype Visit = Visit(payer: string, amount: real, date: int)

  /** One payment as read: the origin cell, the cleaned amount, the day. */
  datatype Payment = Payment(origin: Value, amount: real, date: int)

  /** The aggregates per payer: total paid, number of payments, last day and
      largest single payment. */
  datatype Profile = Profile(total: real, visits: nat, last: int, peak: real)

  function Visits(ps: seq<Payment>): (vs: seq<Visit>)
    ensures |vs| == |ps|
    ensures forall i :: 0 <= i < |ps| ==> vs[i] == Visit(CleanName(ps[i].origin), ps[i].amount, ps[i].date)
  {
    seq(|ps|, i requires 0 <= i < |ps| => Visit(CleanName(ps[i].origin), ps[i].amount, ps[i].date))
  }

  function Max(a: real, b: real): real { if a >= b then a else b }
  function MaxInt(a: int, b: int): int { if a >= b then a else b }

  /** The group-by on the payer: the sum, the count, the latest day and the
      largest amount. */
  function Aggregate(vs: seq<Visit>): (m: map<string, Profile>)
    ensures forall n :: n in m ==> m[n].visits >= 1
  {
    if |vs| == 0 then map[]
    else
      var m := Aggregate(vs[..|vs| - 1]);
      var v := vs[|vs| - 1];
      if v.payer in m then
        var p := m[v.payer];
        m[v.payer := Profile(p.total + v.amount, p.visits + 1, MaxInt(p.last, v.date), Max(p.peak, v.amount))]
      else m[v.payer := Profile(v.amount, 1, v.date, v.amount)]
  }

  predicate PaidBy(vs: seq<Visit>, n: string)
  {
    exists i :: 0 <= i < |vs| && vs[i].payer == n
  }

  function CountFor(vs: seq<Visit>, n: string): nat
  {
    if |vs| == 0 then 0 else CountFor(vs[..|vs| - 1], n) + (if vs[|vs| - 1].payer == n then 1 else 0)
  }

  function SumFor(vs: seq<Visit>, n: string): real
  {
    if |vs| == 0 then 0.0 else SumFor(vs[..|vs| - 1], n) + (if vs[|vs| - 1].payer == n then vs[|vs| - 1].amount else 0.0)
  }

  /** The last payment's effect on the group-by: its payer's profile takes
      it in and every other profile is the one before. */
  lemma AggregateStep(vs: seq<Visit>, n: string)
    requires |vs| > 0
    ensures n in Aggregate(vs) <==> n in Aggregate(vs[..|vs| - 1]) || vs[|vs| - 1].payer == n
    ensures n != vs[|vs| - 1].payer && n in Aggregate(vs) ==> Aggregate(vs)[n] == Aggregate(vs[..|vs| - 1])[n]
  {
  }

  lemma PaidByStep(vs: seq<Visit>, n: string)
    requires |vs| > 0
    ensures PaidBy(vs, n) <==> PaidBy(vs[..|vs| - 1], n) || vs[|vs| - 1].payer == n
  {
    var init := vs[..|vs| - 1];
    if PaidBy(vs, n) && vs[|vs| - 1].payer != n {
      var i :| 0 <= i < |vs| && vs[i].payer == n;
      assert init[i] == vs[i];
    }
    if PaidBy(init, n) {
      var i :| 0 <= i < |init| && init[i].payer == n;
      assert vs[i] == init[i];
    }
  }

  /** Exactly the payers of the log have a profile. */
  lemma {:induction false} AggregateKeys(vs: seq<Visit>, n: string)
    ensures n in Aggregate(vs) <==> PaidBy(vs, n)
  {
    if |vs| > 0 {
      AggregateStep(vs, n);
      PaidByStep(vs, n);
      AggregateKeys(vs[..|vs| - 1], n);
    }
  }

  /** A payer's profile counts their payments and sums their amounts. */
  lemma {:induction false} AggregateTotals(vs: seq<Visit>, n: string)
    requires n in Aggregate(vs)
    ensures Aggregate(vs)[n].visits == CountFor(vs, n) && Aggregate(vs)[n].total == SumFor(vs, n)
  {
    var init := vs[..|vs| - 1];
    AggregateStep(vs, n);
    if n in Aggregate(init) {
      AggregateTotals(init, n);
    } else {
      AggregateKeys(init, n);
      NotPaidNothing(init, n);
    }
  }

  /** Nothing is counted or summed for a name that never paid. */
  lemma {:induction false} NotPaidNothing(vs: seq<Visit>, n: string)
    requires !PaidBy(vs, n)
    ensures CountFor(vs, n) == 0 && SumFor(vs, n) == 0.0
  {
    if |vs| > 0 {
      PaidByStep(vs, n);
      assert vs[|vs| - 1].payer != n;
      NotPaidNothing(vs[..|vs| - 1], n);
    }
  }

  /** The last day and the peak bound every payment of the payer. */
  lemma {:induction false} AggregateBounds(vs: seq<Visit>, n: string, i: nat)
    requires n in Aggregate(vs) && i < |vs| && vs[i].payer == n
    ensures vs[i].date <= Aggregate(vs)[n].last && vs[i].amount <= Aggregate(vs)[n].peak
  {
    var init := vs[..|vs| - 1];
    AggregateStep(vs, n);
    if i < |vs| - 1 {
      assert init[i] == vs[i];
      AggregateKeys(init, n);
      AggregateBounds(init, n, i);
    }
  }

  /** The last day and the peak are each attained by one of the payer's
      payments. */
  lemma {:induction false} AggregateAttained(vs: seq<Visit>, n: string)
    requires n in Aggregate(vs)
    ensures exists i :: 0 <= i < |vs| && vs[i].payer == n && vs[i].date == Aggregate(vs)[n].last
    ensures exists i :: 0 <= i < |vs| && vs[i].payer == n && vs[i].amount == Aggregate(vs)[n].peak
  {
    var init := vs[..|vs| - 1];
    var v := vs[|vs| - 1];
    var m := Aggregate(vs);
    AggregateStep(vs, n);
    if n in Aggregate(init) {
      AggregateAttained(init, n);
      var i :| 0 <= i < |init| && init[i].payer == n && init[i].date == Aggregate(init)[n].last;
      var j :| 0 <= j < |init| && init[j].payer == n && init[j].amount == Aggregate(init)[n].peak;
      assert vs[i] == init[i] && vs[j] == init[j];
      if m[n].last != vs[i].date {
        assert vs[|vs| - 1].payer == n && vs[|vs| - 1].date == m[n].last;
      }
      if m[n].peak != vs[j].amount {
        assert vs[|vs| - 1].payer == n && vs[|vs| - 1].amount == m[n].peak;
      }
    } else {
      assert vs[|vs| - 1].payer == n && vs[|vs| - 1].date == m[n].last && vs[|vs| - 1].amount == m[n].peak;
    }
  }

  /** A payer with a single payment has that payment as both total and peak. */
  lemma {:induction false} OneVisitPeak(vs: seq<Visit>, n: string)
    requires n in Aggregate(vs) && Aggregate(vs)[n].visits == 1
    ensures Aggregate(vs)[n].peak == Aggregate(vs)[n].total
  {
    var init := vs[..|vs| - 1];
    if n in Aggregate(init) && vs[|vs| - 1].payer != n {
      OneVisitPeak(init, n);
    }
  }

  /** Days since the last visit, against the reference day `now`. */
  function DaysAbsent(now: int, p: Profile): (d: int)
    ensures d > DormantAfter <==> p.last < now - DormantAfter
    ensures d >= 0 <==> p.last <= now
  {
    now - p.last
  }

  // ---------------------------------------------------------------------------
  // Segmentation

  datatype Category = Whale | Vip | Recurring | Casual

  /** The overlay of recency on the category. */
  datatype Segment = Active(category: Category) | Lost | Dormant(category: Category)

  /** Days of absence beyond which a customer is no longer active. */
  const DormantAfter: int := 45

  /** The thresholds scale the reference ticket: four tickets for a VIP and
      a ticket and a half for a recurring customer. */
  function VipThreshold(ticket: real): real { ticket * 4.0 }
  function RecurringThreshold(ticket: real): real { ticket * 1.5 }

  /** The first rule that applies: a single visit at the VIP level is a
      whale, a total at the VIP level a VIP, a total at the recurring level
      recurring, and anything else casual. */
  function Categorize(p: Profile, ticket: real): (r: Category)
    ensures r == Whale <==> p.peak >= VipThreshold(ticket) && p.visits == 1
    ensures r == Vip <==> r != Whale && p.total >= VipThreshold(ticket)
    ensures r == Recurring <==> r != Whale && RecurringThreshold(ticket) <= p.total < VipThreshold(ticket)
    ensures r == Casual <==> r != Whale && p.total < RecurringThreshold(ticket) && p.total < VipThreshold(ticket)
  {
    if p.peak >= VipThreshold(ticket) && p.visits == 1 then Whale
    else if p.total >= VipThreshold(ticket) then Vip
    else if p.total >= RecurringThreshold(ticket) then Recurring
    else Casual
  }

  /** The recency overlay: beyond 45 days absent a casual customer is lost
      and any other keeps its category as a dormant one. */
  function SegmentOf(p: Profile, daysOff: int, ticket: real): (s: Segment)
    ensures daysOff <= DormantAfter ==> s == Active(Categorize(p, ticket))
    ensures daysOff > DormantAfter ==> (s == Lost <==> Categorize(p, ticket) == Casual)
    ensures daysOff > DormantAfter && s != Lost ==> s == Dormant(Categorize(p, ticket))
  {
    var c := Categorize(p, ticket);
    if daysOff > DormantAfter then (if c == Casual then Lost else Dormant(c)) else Active(c)
  }

  /** A one-visit customer at the VIP level is a whale, never a VIP. */
  lemma WhaleBeforeVip(p: Profile, ticket: real)
    requires p.visits == 1 && p.peak >= VipThreshold(ticket)
    ensures Categorize(p, ticket) == Whale
  {
  }

  /** For an aggregated payer with one payment, whale is exactly a payment at
      the VIP level. */
  lemma OneVisitWhale(vs: seq<Visit>, n: string, ticket: real)
    requires n in Aggregate(vs) && Aggregate(vs)[n].visits == 1
    ensures Categorize(Aggregate(vs)[n], ticket) == Whale <==> Aggregate(vs)[n].total >= VipThreshold(ticket)
    ensures Categorize(Aggregate(vs)[n], ticket) != Vip
  {
    OneVisitPeak(vs, n);
  }

  /** Each category needs its level: a VIP has a total of four tickets and a
      recurring customer one of a ticket and a half; a customer below both
      levels with more than one visit is casual. */
  lemma CategoryLevels(p: Profile, ticket: real)
    requires ticket >= 0.0
    ensures Categorize(p, ticket) == Vip ==> p.total >= VipThreshold(ticket)
    ensures Categorize(p, ticket) == Recurring ==> RecurringThreshold(ticket) <= p.total < VipThreshold(ticket)
    ensures Categorize(p, ticket) == Whale ==> p.visits == 1
    ensures p.total < RecurringThreshold(ticket) && p.peak < VipThreshold(ticket) ==> Categorize(p, ticket) == Casual
  {
  }

  /** Exactly 45 days absent is still active; 46 is not. */
  lemma DormancyBoundary(p: Profile, ticket: real)
    ensures SegmentOf(p, 45, ticket).Active?
    ensures !SegmentOf(p, 46, ticket).Active?
  {
  }

  /** With a reference ticket of 20: one visit of 90 is a whale, 85 over
      three visits a VIP, and that VIP after 50 days away is dormant. */
  lemma SegmentExamples()
    ensures Categorize(Profile(90.0, 1, 0, 90.0), 20.0) == Whale
    ensures Categorize(Profile(85.0, 3, 0, 40.0), 20.0) == Vip
    ensures SegmentOf(Profile(85.0, 3, 0, 40.0), 50, 20.0) == Dormant(Vip)
    ensures SegmentOf(Profile(20.0, 2, 0, 10.0), 50, 20.0) == Lost
  {
  }

  // ---------------------------------------------------------------------------
  // The segment labels

  function CategoryLabel(c: Category): string
  {
    match c
    case Whale => "\U{1F40B} BALLENA (1 Visita)"
    case Vip => "\U{1F48E} VIP (Socio)"
    case Recurring => "\U{1F525} RECURRENTE"
    case Casual => "\U{1F331} CASUAL"
  }

  /** `segmentar_cliente` on the label strings, as the source builds them:
      the overlay tests for "CASUAL" in the label and otherwise keeps the
      label's text before "(", stripped. */
  function SegmentLabel(p: Profile, daysOff: int, ticket: real): (r: string)
    ensures daysOff <= DormantAfter ==> r == Render(Active(Categorize(p, ticket)))
    ensures daysOff > DormantAfter ==> |r| > 0 && r[0] == '\U{1F4A4}'
  {
    var estado := CategoryLabel(Categorize(p, ticket));
    if daysOff > DormantAfter then
      if Contains(estado, "CASUAL") then "\U{1F4A4} PERDIDO"
      else "\U{1F4A4} DORMIDO (" + Strip(Before(estado, '(')) + ")"
    else estado
  }

  /** The short name a dormant label keeps. */
  function ShortLabel(c: Category): string
  {
    match c
    case Whale => "\U{1F40B} BALLENA"
    case Vip => "\U{1F48E} VIP"
    case Recurring => "\U{1F525} RECURRENTE"
    case Casual => "\U{1F331} CASUAL"
  }

  function Render(s: Segment): string
  {
    match s
    case Active(c) => CategoryLabel(c)
    case Lost => "\U{1F4A4} PERDIDO"
    case Dormant(c) => "\U{1F4A4} DORMIDO (" + ShortLabel(c) + ")"
  }

  lemma CasualIsCasual()
    ensures Contains(CategoryLabel(Casual), "CASUAL")
  {
    assert CategoryLabel(Casual)[2..8] == "CASUAL";
    ContainsAt(CategoryLabel(Casual), "CASUAL", 2);
  }

  lemma OthersNotCasual(c: Category)
    requires c != Casual
    ensures !Contains(CategoryLabel(c), "CASUAL")
  {
    if c == Whale { NotContainsMissingChar(CategoryLabel(c), "CASUAL", 0); }
    else if c == Vip { NotContainsMissingChar(CategoryLabel(c), "CASUAL", 0); }
    else { NotContainsMissingChar(CategoryLabel(c), "CASUAL", 1); }
  }

  lemma WhaleShort()
    ensures Strip(Before(CategoryLabel(Whale), '(')) == ShortLabel(Whale)
  {
    WhaleParen();
    BeforeAt(CategoryLabel(Whale), '(', 10);
    WhaleHead();
    StripTrailingSpace(ShortLabel(Whale));
  }

  lemma WhaleParen()
    ensures CategoryLabel(Whale)[10] == '(' && '(' !in CategoryLabel(Whale)[..10]
  {
  }

  lemma WhaleHead()
    ensures CategoryLabel(Whale)[..10] == ShortLabel(Whale) + " "
    ensures !IsSpace(ShortLabel(Whale)[0]) && !IsSpace(ShortLabel(Whale)[|ShortLabel(Whale)| - 1])
  {
  }

  lemma VipShort()
    ensures Strip(Before(CategoryLabel(Vip), '(')) == ShortLabel(Vip)
  {
    VipParen();
    BeforeAt(CategoryLabel(Vip), '(', 6);
    VipHead();
    StripTrailingSpace(ShortLabel(Vip));
  }

  lemma VipParen()
    ensures CategoryLabel(Vip)[6] == '(' && '(' !in CategoryLabel(Vip)[..6]
  {
  }

  lemma VipHead()
    ensures CategoryLabel(Vip)[..6] == ShortLabel(Vip) + " "
    ensures !IsSpace(ShortLabel(Vip)[0]) && !IsSpace(ShortLabel(Vip)[|ShortLabel(Vip)| - 1])
  {
  }

  lemma RecurringShort()
    ensures Strip(Before(CategoryLabel(Recurring), '(')) == ShortLabel(Recurring)
  {
    RecurringNoParen();
    BeforeAbsent(CategoryLabel(Recurring), '(');
    RecurringStripped();
  }

  lemma RecurringNoParen()
    ensures '(' !in CategoryLabel(Recurring)
  {
  }

  lemma RecurringStripped()
    ensures Strip(CategoryLabel(Recurring)) == CategoryLabel(Recurring)
  {
    var l := CategoryLabel(Recurring);
    assert !IsSpace(l[0]) && !IsSpace(l[|l| - 1]);
    StripStripped(l);
  }

  /** One trailing blank after a stripped text is cut by a strip. */
  lemma StripTrailingSpace(t: string)
    requires |t| > 0 && !IsSpace(t[0]) && !IsSpace(t[|t| - 1])
    ensures Strip(t + " ") == t
  {
    var s := t + " ";
    assert s[0] == t[0];
    assert StripLeft(s) == s;
    assert s[..|s| - 1] == t;
    assert StripRight(t) == t;
    assert StripRight(s) == StripRight(t);
  }

  /** The label strings the source builds are exactly the rendered segments:
      the "CASUAL" test recognises the casual category only, and the text
      before "(" is the category's short name. */
  lemma SegmentLabelAgrees(p: Profile, daysOff: int, ticket: real)
    ensures SegmentLabel(p, daysOff, ticket) == Render(SegmentOf(p, daysOff, ticket))
  {
    var c := Categorize(p, ticket);
    if daysOff > DormantAfter {
      if c == Casual {
        CasualIsCasual();
      } else {
        OthersNotCasual(c);
        if c == Whale { WhaleShort(); }
        else if c == Vip { VipShort(); }
        else { RecurringShort(); }
      }
    }
  }

  // ---------------------------------------------------------------------------
  // The VIP count of the loyalty tab

  /** As written: the labels that contain "VIP". */
  function CountVipLabels(labels: seq<string>): (n: nat)
    ensures n <= |labels|
    ensures n == 0 <==> forall i :: 0 <= i < |labels| ==> !Contains(labels[i], "VIP")
  {
    if |labels| == 0 then 0
    else CountVipLabels(labels[..|labels| - 1]) + (if Contains(labels[|labels| - 1], "VIP") then 1 else 0)
  }

  /** Corrected: the customers whose segment is an active VIP. */
  function CountActiveVip(segs: seq<Segment>): (n: nat)
    ensures n <= |segs|
    ensures n == 0 <==> forall i :: 0 <= i < |segs| ==> segs[i] != Active(Vip)
  {
    if |segs| == 0 then 0
    else CountActiveVip(segs[..|segs| - 1]) + (if segs[|segs| - 1] == Active(Vip) then 1 else 0)
  }

  function CountDormantVip(segs: seq<Segment>): (n: nat)
    ensures n <= |segs|
  {
    if |segs| == 0 then 0
    else CountDormantVip(segs[..|segs| - 1]) + (if segs[|segs| - 1] == Dormant(Vip) then 1 else 0)
  }

  function RenderAll(segs: seq<Segment>): (ls: seq<string>)
    ensures |ls| == |segs| && forall i :: 0 <= i < |segs| ==> ls[i] == Render(segs[i])
  {
    seq(|segs|, i requires 0 <= i < |segs| => Render(segs[i]))
  }

  lemma VipInVipLabels()
    ensures Contains(Render(Active(Vip)), "VIP")
    ensures Contains(Render(Dormant(Vip)), "VIP")
  {
    assert Render(Active(Vip))[2..5] == "VIP";
    ContainsAt(Render(Active(Vip)), "VIP", 2);
    assert Render(Dormant(Vip))[13..16] == "VIP";
    ContainsAt(Render(Dormant(Vip)), "VIP", 13);
  }

  lemma NoVipInActiveLabels(c: Category)
    requires c != Vip
    ensures !Contains(Render(Active(c)), "VIP")
  {
    if c == Whale { NotContainsMissingChar(Render(Active(c)), "VIP", 2); }
    else { NotContainsMissingChar(Render(Active(c)), "VIP", 0); }
  }

  lemma NoVipInDormantLabels(c: Category)
    requires c != Vip
    ensures !Contains(Render(Dormant(c)), "VIP")
    ensures !Contains(Render(Lost), "VIP")
  {
    NotContainsMissingChar(Render(Dormant(c)), "VIP", 0);
    NotContainsMissingChar(Render(Lost), "VIP", 0);
  }

  lemma ContainsVipIff(s: Segment)
    ensures Contains(Render(s), "VIP") <==> s == Active(Vip) || s == Dormant(Vip)
  {
    VipInVipLabels();
    match s
    case Active(c) => if c != Vip { NoVipInActiveLabels(c); }
    case Lost => NoVipInDormantLabels(Whale);
    case Dormant(c) => if c != Vip { NoVipInDormantLabels(c); }
  }

  /** The count as written is the active VIPs plus the dormant ones. */
  lemma {:induction false} VipCountIncludesDormant(segs: seq<Segment>)
    ensures CountVipLabels(RenderAll(segs)) == CountActiveVip(segs) + CountDormantVip(segs)
  {
    if |segs| > 0 {
      var init := segs[..|segs| - 1];
      assert RenderAll(segs)[..|segs| - 1] == RenderAll(init);
      VipCountIncludesDormant(init);
      ContainsVipIff(segs[|segs| - 1]);
    }
  }

  /** A VIP away for 50 days is counted among the active VIPs as written,
      and not by the corrected count. */
  lemma DormantVipCounted()
    ensures CountVipLabels([SegmentLabel(Profile(85.0, 3, 0, 40.0), 50, 20.0)]) == 1
    ensures CountActiveVip([SegmentOf(Profile(85.0, 3, 0, 40.0), 50, 20.0)]) == 0
  {
    var p := Profile(85.0, 3, 0, 40.0);
    SegmentLabelAgrees(p, 50, 20.0);
    VipInVipLabels();
    var ls := [SegmentLabel(p, 50, 20.0)];
    assert ls[..0] == [];
  }
}
