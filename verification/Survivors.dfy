/** Which identifier of a key the extraction keeps, over all orders in which a source may report its identifiers
    (src/server/services/cmdb-correlation.service.ts). */
module Survivors {
  import opened Ordering
  import opened Wrappers
  import opened Identifiers

  /** An identifier reported under the key. */
  ghost predicate Rival(norm: Normalizer, rs: seq<Report>, key: Key, x: Identifier) {
    exists r :: r in rs && KeyOf(norm, r) == Some(key) && Made(norm, r) == x
  }

  /** No rival replaces it. */
  ghost predicate Unbeaten(norm: Normalizer, rs: seq<Report>, key: Key, x: Identifier) {
    Rival(norm, rs, key, x) && forall y :: Rival(norm, rs, key, y) ==> !Replaces(y, x)
  }

  ghost predicate SomeUnbeaten(norm: Normalizer, rs: seq<Report>, key: Key) {
    exists x :: Unbeaten(norm, rs, key, x)
  }

  /** The unbeaten rivals, if there are any; otherwise the primary ones and those more confident than a primary one. */
  ghost predicate Contender(norm: Normalizer, rs: seq<Report>, key: Key, x: Identifier) {
    && Rival(norm, rs, key, x)
    && if SomeUnbeaten(norm, rs, key) then Unbeaten(norm, rs, key, x)
       else x.primary || exists p :: Rival(norm, rs, key, p) && p.primary && p.confidence < x.confidence
  }

  function Step(current: Option<Identifier>, c: Identifier): Option<Identifier> {
    if current.None? || Replaces(c, current.value) then Some(c) else current
  }

  lemma SurvivorStep(norm: Normalizer, rs: seq<Report>, r: Report, key: Key)
    requires AllNormalize(norm, rs) && KeyOf(norm, r).Some?
    ensures Survivor(norm, rs + [r], key)
            == if KeyOf(norm, r) == Some(key) then Step(Survivor(norm, rs, key), Made(norm, r))
               else Survivor(norm, rs, key)
  {
    SurvivorWasReported(norm, rs, key);
    SurvivorAfter(norm, rs, r, key);
  }

  lemma SurvivorIsRival(norm: Normalizer, rs: seq<Report>, key: Key)
    requires AllNormalize(norm, rs)
    ensures Survivor(norm, rs, key).Some? <==> Reported(norm, rs, key)
    ensures Survivor(norm, rs, key).Some? ==> Rival(norm, rs, key, Survivor(norm, rs, key).value)
  {
    SurvivorWasReported(norm, rs, key);
  }

  // ---------------------------------------------------------------------
  // Every survivor is a contender
  // ---------------------------------------------------------------------

  /** Once an unbeaten rival has come, the survivor is unbeaten. `all` are the reports of the whole run. */
  lemma {:induction false} UnbeatenComes(norm: Normalizer, all: seq<Report>, rs: seq<Report>, key: Key, u: Identifier)
    requires AllNormalize(norm, all) && forall r :: r in rs ==> r in all
    requires Unbeaten(norm, all, key, u) && Rival(norm, rs, key, u)
    ensures Survivor(norm, rs, key).Some? && Unbeaten(norm, all, key, Survivor(norm, rs, key).value)
  {
    var front, last := rs[..|rs| - 1], rs[|rs| - 1];
    assert rs == front + [last];
    assert last in rs && last in all;
    SurvivorStep(norm, front, last, key);
    SurvivorIsRival(norm, front, key);
    var was := Survivor(norm, front, key);
    if Rival(norm, front, key, u) {
      UnbeatenComes(norm, all, front, key, u);
      if KeyOf(norm, last) == Some(key) { assert Rival(norm, all, key, Made(norm, last)); }
    } else {
      assert KeyOf(norm, last) == Some(key) && Made(norm, last) == u;
      if was.Some? && !Replaces(u, was.value) {
      }
    }
  }

  ghost predicate AboveAPrimary(norm: Normalizer, rs: seq<Report>, key: Key, x: Identifier) {
    x.primary || exists p :: Rival(norm, rs, key, p) && p.primary && p.confidence < x.confidence
  }

  /** Once a primary rival has come, the survivor is primary or more confident than one. */
  lemma {:induction false} PrimaryComes(norm: Normalizer, rs: seq<Report>, key: Key, p: Identifier)
    requires AllNormalize(norm, rs) && Rival(norm, rs, key, p) && p.primary
    ensures Survivor(norm, rs, key).Some? && AboveAPrimary(norm, rs, key, Survivor(norm, rs, key).value)
  {
    var front, last := rs[..|rs| - 1], rs[|rs| - 1];
    assert rs == front + [last];
    assert last in rs;
    SurvivorStep(norm, front, last, key);
    SurvivorIsRival(norm, front, key);
    forall x ensures Rival(norm, rs, key, x) <==>
                     Rival(norm, front, key, x) || (KeyOf(norm, last) == Some(key) && Made(norm, last) == x)
    {
    }
    hide Survivor, Rival, KeyOf, Made;
    if q :| Rival(norm, front, key, q) && q.primary {
      PrimaryComes(norm, front, key, q);
      hide AboveAPrimary;
    }
  }

  /** Without an unbeaten rival some rival is primary and all of the most confident ones are not. */
  lemma BeatenMeansMixed(norm: Normalizer, rs: seq<Report>, key: Key) returns (z: Identifier, p: Identifier)
    requires AllNormalize(norm, rs) && Reported(norm, rs, key) && !SomeUnbeaten(norm, rs, key)
    ensures Rival(norm, rs, key, z) && !z.primary && Rival(norm, rs, key, p) && p.primary
    ensures forall x :: Rival(norm, rs, key, x) ==>
              x.confidence <= z.confidence && (x.primary ==> x.confidence < z.confidence)
  {
    z := MostConfident(norm, rs, key);
    assert !Unbeaten(norm, rs, key, z);
    p :| Rival(norm, rs, key, p) && Replaces(p, z);
    forall x | Rival(norm, rs, key, x) && x.primary ensures x.confidence < z.confidence {
      TopPrimaryIsUnbeaten(norm, rs, key, x, z);
    }
  }

  lemma TopPrimaryIsUnbeaten(norm: Normalizer, rs: seq<Report>, key: Key, x: Identifier, z: Identifier)
    requires Rival(norm, rs, key, x) && x.primary
    requires forall y :: Rival(norm, rs, key, y) ==> y.confidence <= z.confidence
    ensures x.confidence == z.confidence ==> Unbeaten(norm, rs, key, x)
  {}

  lemma {:induction false} MostConfident(norm: Normalizer, rs: seq<Report>, key: Key) returns (z: Identifier)
    requires AllNormalize(norm, rs) && Reported(norm, rs, key)
    ensures Rival(norm, rs, key, z) && forall x :: Rival(norm, rs, key, x) ==> x.confidence <= z.confidence
  {
    var front, last := rs[..|rs| - 1], rs[|rs| - 1];
    assert rs == front + [last];
    assert last in rs;
    forall x ensures Rival(norm, rs, key, x) <==>
                     Rival(norm, front, key, x) || (KeyOf(norm, last) == Some(key) && Made(norm, last) == x)
    {
    }
    if Reported(norm, front, key) {
      z := MostConfident(norm, front, key);
      if KeyOf(norm, last) == Some(key) && Made(norm, last).confidence > z.confidence { z := Made(norm, last); }
    } else {
      forall x ensures !Rival(norm, front, key, x) {}
      z := Made(norm, last);
    }
  }

  lemma SurvivorContends(norm: Normalizer, rs: seq<Report>, key: Key)
    requires AllNormalize(norm, rs) && Reported(norm, rs, key)
    ensures Survivor(norm, rs, key).Some? && Contender(norm, rs, key, Survivor(norm, rs, key).value)
  {
    SurvivorIsRival(norm, rs, key);
    if u :| Unbeaten(norm, rs, key, u) {
      UnbeatenComes(norm, rs, rs, key, u);
    } else {
      var z, p := BeatenMeansMixed(norm, rs, key);
      PrimaryComes(norm, rs, key, p);
    }
  }

  // ---------------------------------------------------------------------
  // Every contender survives some order
  // ---------------------------------------------------------------------

  /** The same reports with one of them taken to the end. */
  lemma TakeOut(rs: seq<Report>, r: Report) returns (rest: seq<Report>)
    requires r in rs
    ensures multiset(rest + [r]) == multiset(rs) == multiset([r] + rest)
    ensures forall x :: x in rs <==> x == r || x in rest
  {
    var k :| 0 <= k < |rs| && rs[k] == r;
    rest := RemoveAt(rs, k);
    MovedIsSame(rs, k);
  }

  lemma LastWord(norm: Normalizer, rest: seq<Report>, r: Report, key: Key)
    requires AllNormalize(norm, rest) && KeyOf(norm, r) == Some(key)
    requires Survivor(norm, rest, key).Some? ==> Replaces(Made(norm, r), Survivor(norm, rest, key).value)
    ensures Survivor(norm, rest + [r], key) == Some(Made(norm, r))
  {
    SurvivorStep(norm, rest, r, key);
  }

  lemma UnbeatenSurvives(norm: Normalizer, rs: seq<Report>, key: Key, x: Identifier) returns (w: seq<Report>)
    requires AllNormalize(norm, rs) && Unbeaten(norm, rs, key, x)
    ensures multiset(w) == multiset(rs) && Survivor(norm, w, key) == Some(x)
  {
    var r :| r in rs && KeyOf(norm, r) == Some(key) && Made(norm, r) == x;
    var rest := TakeOut(rs, r);
    w := [r] + rest;
    forall y | y in rest && KeyOf(norm, y) == Some(key) ensures !Replaces(Made(norm, y), x) {
      assert Rival(norm, rs, key, Made(norm, y));
    }
    UnbeatenStays(norm, r, rest, key);
  }

  /** After the most confident rival the survivor is not primary, so a primary one replaces it. */
  lemma PrimaryAfterTop(norm: Normalizer, rest: seq<Report>, z: Report, p: Report, key: Key)
    requires AllNormalize(norm, rest) && KeyOf(norm, z) == Some(key) == KeyOf(norm, p)
    requires !Made(norm, z).primary && Made(norm, p).primary
    requires forall x :: Rival(norm, rest, key, x) ==>
               x.confidence <= Made(norm, z).confidence && (x.primary ==> x.confidence < Made(norm, z).confidence)
    ensures Survivor(norm, rest + [z] + [p], key) == Some(Made(norm, p))
  {
    SurvivorIsRival(norm, rest, key);
    SurvivorStep(norm, rest, z, key);
    SurvivorStep(norm, rest + [z], p, key);
  }

  lemma PrimarySurvives(norm: Normalizer, rs: seq<Report>, key: Key, p: Identifier) returns (w: seq<Report>)
    requires AllNormalize(norm, rs) && !SomeUnbeaten(norm, rs, key) && Rival(norm, rs, key, p) && p.primary
    ensures multiset(w) == multiset(rs) && Survivor(norm, w, key) == Some(p)
  {
    var b :| b in rs && KeyOf(norm, b) == Some(key) && Made(norm, b) == p;
    var z, q := BeatenMeansMixed(norm, rs, key);
    var a :| a in rs && KeyOf(norm, a) == Some(key) && Made(norm, a) == z;
    var one := TakeOut(rs, b);
    var two := TakeOut(one, a);
    w := two + [a] + [b];
    assert multiset(w) == multiset(two + [a]) + multiset([b]) == multiset(one + [b]);
    forall x | Rival(norm, two, key, x) ensures Rival(norm, rs, key, x) {}
    PrimaryAfterTop(norm, two, a, b, key);
  }

  /** A most confident rival comes last, right behind a primary one. */
  lemma TopSurvives(norm: Normalizer, rs: seq<Report>, key: Key, c: Report, b: Report) returns (w: seq<Report>)
    requires AllNormalize(norm, rs) && c in rs && b in rs && KeyOf(norm, c) == Some(key) == KeyOf(norm, b)
    requires !Made(norm, c).primary && Made(norm, b).primary
    requires forall x :: Rival(norm, rs, key, x) && x.primary ==> x.confidence < Made(norm, c).confidence
    ensures multiset(w) == multiset(rs) && Survivor(norm, w, key) == Some(Made(norm, c))
  {
    var one := TakeOut(rs, c);
    var two := TakeOut(one, b);
    w := two + [b] + [c];
    assert multiset(w) == multiset(two + [b]) + multiset([c]) == multiset(one + [c]);
    forall y | Rival(norm, two, key, y) ensures Rival(norm, rs, key, y) {}
    assert Rival(norm, rs, key, Made(norm, b));
    hide Rival, Survivor;
    SurvivorIsRival(norm, two, key);
    SurvivorStep(norm, two, b, key);
    LastWord(norm, two + [b], c, key);
  }

  /** A rival more confident than a primary one comes last, behind the most confident one and that one. */
  lemma MiddleSurvives(norm: Normalizer, rs: seq<Report>, key: Key, a: Report, b: Report, c: Report)
    returns (w: seq<Report>)
    requires AllNormalize(norm, rs) && a in rs && b in rs && c in rs
    requires KeyOf(norm, a) == Some(key) && KeyOf(norm, b) == Some(key) && KeyOf(norm, c) == Some(key)
    requires !Made(norm, a).primary && Made(norm, b).primary && !Made(norm, c).primary
    requires Made(norm, b).confidence < Made(norm, c).confidence < Made(norm, a).confidence
    requires forall x :: Rival(norm, rs, key, x) ==>
               x.confidence <= Made(norm, a).confidence && (x.primary ==> x.confidence < Made(norm, a).confidence)
    ensures multiset(w) == multiset(rs) && Survivor(norm, w, key) == Some(Made(norm, c))
  {
    var one := TakeOut(rs, c);
    var two := TakeOut(one, b);
    var three := TakeOut(two, a);
    w := three + [a] + [b] + [c];
    forall y | Rival(norm, three, key, y) ensures Rival(norm, rs, key, y) {}
    hide Rival, Survivor;
    PrimaryAfterTop(norm, three, a, b, key);
    LastWord(norm, three + [a] + [b], c, key);
  }

  lemma ConfidentSurvives(norm: Normalizer, rs: seq<Report>, key: Key, x: Identifier, p: Identifier)
    returns (w: seq<Report>)
    requires AllNormalize(norm, rs) && !SomeUnbeaten(norm, rs, key) && Rival(norm, rs, key, x) && !x.primary
    requires Rival(norm, rs, key, p) && p.primary && p.confidence < x.confidence
    ensures multiset(w) == multiset(rs) && Survivor(norm, w, key) == Some(x)
  {
    var z, q := BeatenMeansMixed(norm, rs, key);
    var c :| c in rs && KeyOf(norm, c) == Some(key) && Made(norm, c) == x;
    var b :| b in rs && KeyOf(norm, b) == Some(key) && Made(norm, b) == p;
    var a :| a in rs && KeyOf(norm, a) == Some(key) && Made(norm, a) == z;
    hide Rival, Survivor, SomeUnbeaten, AllNormalize, KeyOf, Made;
    if x.confidence == z.confidence {
      w := TopSurvives(norm, rs, key, c, b);
    } else {
      w := MiddleSurvives(norm, rs, key, a, b, c);
    }
  }

  /** The identifiers that can survive are exactly the contenders. */
  lemma PossibleSurvivorsExactly(norm: Normalizer, rs: seq<Report>, key: Key, x: Identifier)
    requires AllNormalize(norm, rs)
    ensures (exists w :: multiset(w) == multiset(rs) && Survivor(norm, w, key) == Some(x)) <==>
            Contender(norm, rs, key, x)
  {
    if w :| multiset(w) == multiset(rs) && Survivor(norm, w, key) == Some(x) {
      SameElements(w, rs);
      SurvivorIsRival(norm, w, key);
      SurvivorContends(norm, w, key);
      SameContenders(norm, w, rs, key, x);
    }
    if Contender(norm, rs, key, x) {
      var w;
      if SomeUnbeaten(norm, rs, key) {
        w := UnbeatenSurvives(norm, rs, key, x);
      } else if x.primary {
        w := PrimarySurvives(norm, rs, key, x);
      } else {
        var p :| Rival(norm, rs, key, p) && p.primary && p.confidence < x.confidence;
        w := ConfidentSurvives(norm, rs, key, x, p);
      }
    }
  }

  lemma SameContenders(norm: Normalizer, rs: seq<Report>, ts: seq<Report>, key: Key, x: Identifier)
    requires forall r :: r in rs <==> r in ts
    ensures Contender(norm, rs, key, x) <==> Contender(norm, ts, key, x)
  {
    forall y ensures Rival(norm, rs, key, y) <==> Rival(norm, ts, key, y) {}
    hide Rival;
    forall y ensures Unbeaten(norm, rs, key, y) <==> Unbeaten(norm, ts, key, y) {}
    hide Unbeaten;
    assert SomeUnbeaten(norm, rs, key) <==> SomeUnbeaten(norm, ts, key);
  }

  // ---------------------------------------------------------------------
  // The extraction: reports first, then the named fields and the MAC addresses
  // ---------------------------------------------------------------------

  /** What becomes of a survivor when more reports follow. */
  function Continue(norm: Normalizer, current: Option<Identifier>, tail: seq<Report>, key: Key): Option<Identifier> {
    if tail == [] then current
    else
      var before, last := Continue(norm, current, tail[..|tail| - 1], key), tail[|tail| - 1];
      if KeyOf(norm, last) == Some(key) then Step(before, Made(norm, last)) else before
  }

  lemma {:induction false} SurvivorContinues(norm: Normalizer, rs: seq<Report>, tail: seq<Report>, key: Key)
    requires AllNormalize(norm, rs) && AllNormalize(norm, tail)
    ensures Survivor(norm, rs + tail, key) == Continue(norm, Survivor(norm, rs, key), tail, key)
  {
    if tail == [] {
      assert rs + tail == rs;
    } else {
      var front, last := tail[..|tail| - 1], tail[|tail| - 1];
      assert rs + tail == rs + front + [last];
      assert tail == front + [last] && last in tail;
      SurvivorContinues(norm, rs, front, key);
      SurvivorStep(norm, rs + front, last, key);
    }
  }

  /** The named fields and MAC addresses, which always follow the reported identifiers. */
  function Tail(d: Dto): seq<Report> { Named(d) + NicReports(d.nics) }

  /** Does the identifier that is kept for the key depend on the order of the reported identifiers? */
  ghost predicate ReportOrderIrrelevant(norm: Normalizer, d: Dto, key: Key) {
    forall reports :: multiset(reports) == multiset(d.reports) ==>
      Survivor(norm, Reports(d.(reports := reports)), key) == Survivor(norm, Reports(d), key)
  }

  /** The named fields and MAC addresses lead from every contender to the same identifier. */
  ghost predicate TailDecides(norm: Normalizer, d: Dto, key: Key) {
    forall x, y :: Contender(norm, d.reports, key, x) && Contender(norm, d.reports, key, y) ==>
      Continue(norm, Some(x), Tail(d), key) == Continue(norm, Some(y), Tail(d), key)
  }

  lemma ReportsSplit(norm: Normalizer, d: Dto, reports: seq<Report>, key: Key)
    requires AllNormalize(norm, Reports(d)) && multiset(reports) == multiset(d.reports)
    ensures AllNormalize(norm, reports) && AllNormalize(norm, d.reports)
    ensures Survivor(norm, Reports(d.(reports := reports)), key)
            == Continue(norm, Survivor(norm, reports, key), Tail(d), key)
  {
    SameElements(reports, d.reports);
    assert Reports(d) == d.reports + Tail(d);
    assert Reports(d.(reports := reports)) == reports + Tail(d);
    SurvivorContinues(norm, reports, Tail(d), key);
  }

  /** The kept confidence and primary flag of a key are the same for all orders of the reported identifiers exactly when
      the named fields and MAC addresses that follow lead from every contender to the same identifier; with one
      contender, or none, that is so. */
  lemma ExtractedSurvivorExactly(norm: Normalizer, d: Dto, key: Key)
    requires AllNormalize(norm, Reports(d))
    ensures ReportOrderIrrelevant(norm, d, key) <==> TailDecides(norm, d, key)
  {
    ReportsSplit(norm, d, d.reports, key);
    assert d.(reports := d.reports) == d;
    hide Continue, Survivor, Contender, Reports, Tail;
    if ReportOrderIrrelevant(norm, d, key) {
      forall x | Contender(norm, d.reports, key, x)
        ensures Continue(norm, Some(x), Tail(d), key) == Survivor(norm, Reports(d), key)
      {
        PossibleSurvivorsExactly(norm, d.reports, key, x);
        var w :| multiset(w) == multiset(d.reports) && Survivor(norm, w, key) == Some(x);
        ReportsSplit(norm, d, w, key);
      }
    }
    if TailDecides(norm, d, key) {
      forall w | multiset(w) == multiset(d.reports)
        ensures Survivor(norm, Reports(d.(reports := w)), key) == Survivor(norm, Reports(d), key)
      {
        ReportsSplit(norm, d, w, key);
        SurvivorsContend(norm, d.reports, w, key);
      }
    }
  }

  lemma SurvivorsContend(norm: Normalizer, rs: seq<Report>, w: seq<Report>, key: Key)
    requires AllNormalize(norm, rs) && multiset(w) == multiset(rs)
    ensures Survivor(norm, w, key).Some? <==> Survivor(norm, rs, key).Some?
    ensures Survivor(norm, w, key).Some? ==>
              Contender(norm, rs, key, Survivor(norm, w, key).value)
              && Contender(norm, rs, key, Survivor(norm, rs, key).value)
  {
    SameElements(w, rs);
    SurvivorIsRival(norm, w, key);
    SurvivorIsRival(norm, rs, key);
    if Survivor(norm, w, key).Some? {
      PossibleSurvivorsExactly(norm, rs, key, Survivor(norm, w, key).value);
      PossibleSurvivorsExactly(norm, rs, key, Survivor(norm, rs, key).value);
    }
  }

  /** The extraction returns exactly the survivors of its keys. */
  lemma ExtractHoldsSurvivors(lt: (string, string) -> bool, norm: Normalizer, d: Dto, x: Identifier)
    requires Extract(lt, norm, d).Some?
    ensures x in Extract(lt, norm, d).value <==> Survivor(norm, Reports(d), x.key) == Some(x)
  {
    var es := PutAll(norm, Reports(d)).value;
    SortPermutes(ByKey(lt), es);
    SameElements(Sort(ByKey(lt), es), es);
    TableKeys(norm, Reports(d), x.key);
    hide Reports, PutAll, Sort;
    if x in es {
      var i :| 0 <= i < |es| && es[i] == x;
      var k := Find(es, x.key);
      assert k == i;
    }
  }

  /** A named serial number can settle what the reports leave open: two reports without a dominating one end, in either
      order, with the named field. */
  lemma NamedFieldCanDecide()
    ensures var norm := (kind: Kind, value: string) => Some(value);
            var key := Key("SERIAL_NUMBER", "GLOBAL", "A1");
            var a := Report("SERIAL_NUMBER", "GLOBAL", "A1", 95.0, false);
            var b := Report("SERIAL_NUMBER", "GLOBAL", "A1", 92.0, false);
            var named := Report("SERIAL_NUMBER", "GLOBAL", "A1", 90.0, true);
            && Survivor(norm, [a, b, named], key) == Survivor(norm, [b, a, named], key) == Some(Made(norm, named))
            && !exists s :: AllNormalize(norm, [a, b, named]) && Champion(norm, [a, b, named], key, s)
  {
    var norm := (kind: Kind, value: string) => Some(value);
    var key := Key("SERIAL_NUMBER", "GLOBAL", "A1");
    var a := Report("SERIAL_NUMBER", "GLOBAL", "A1", 95.0, false);
    var b := Report("SERIAL_NUMBER", "GLOBAL", "A1", 92.0, false);
    var named := Report("SERIAL_NUMBER", "GLOBAL", "A1", 90.0, true);
    assert KeyOf(norm, a) == KeyOf(norm, b) == KeyOf(norm, named) == Some(key);
    ThreeReports(norm, a, b, named, key);
    ThreeReports(norm, b, a, named, key);
    assert a in [a, b, named] && named in [a, b, named];
  }

  lemma ThreeReports(norm: Normalizer, a: Report, b: Report, c: Report, key: Key)
    requires KeyOf(norm, a) == Some(key) && KeyOf(norm, b) == Some(key) && KeyOf(norm, c) == Some(key)
    ensures Survivor(norm, [a, b, c], key) == Step(Step(Some(Made(norm, a)), Made(norm, b)), Made(norm, c))
  {
    EmptyTable(norm);
    SurvivorStep(norm, [], a, key);
    SurvivorStep(norm, [a], b, key);
    SurvivorStep(norm, [a, b], c, key);
    assert [] + [a] == [a] && [a] + [b] == [a, b] && [a, b] + [c] == [a, b, c];
  }
}
