/** Cross-suite duplicate detection among reviewed golden cases. */
module SuiteCollisions {
  import opened Text

  /** A case with its normalized question and the signature of its plan. */
  datatype Case = Case(caseId: string, question: string, signature: string)

  /** A named suite; the names of a dictionary of suites are distinct. */
  datatype Suite = Suite(name: string, cases: seq<Case>)

  datatype Kind = Question | Signature

  datatype Entry = Entry(suite: string, item: Case)

  function Key(kind: Kind, c: Case): string {
    if kind == Question then c.question else c.signature
  }

  /** `f"{name}:{case_id}"` */
  function Tag(e: Entry): string {
    e.suite + ":" + e.item.caseId
  }

  /** `label.split(":", 1)[0]` */
  function Head(tag: string): string {
    tag[..IndexOf(':', tag)]
  }

  function EntriesOf(name: string, cases: seq<Case>): (r: seq<Entry>)
    ensures |r| == |cases| && forall i | 0 <= i < |r| :: r[i] == Entry(name, cases[i])
  {
    seq(|cases|, i requires 0 <= i < |cases| => Entry(name, cases[i]))
  }

  /** All cases in the order of the nested loops. */
  function Entries(suites: seq<Suite>): seq<Entry> {
    if suites == [] then []
    else
      var last := suites[|suites| - 1];
      Entries(suites[..|suites| - 1]) + EntriesOf(last.name, last.cases)
  }

  /** What the check is for: no question and no plan is shared by differently named suites. */
  predicate Shared(entries: seq<Entry>, i: nat, j: nat, kind: Kind) {
    i < j < |entries| && Key(kind, entries[i].item) == Key(kind, entries[j].item) && entries[i].suite != entries[j].suite
  }

  predicate CrossDuplicate(entries: seq<Entry>) {
    exists i: nat, j: nat, kind | i < j < |entries| :: Shared(entries, i, j, kind)
  }

  /** The latest earlier occurrence of a key, or -1. */
  function LastIndex(entries: seq<Entry>, kind: Kind, key: string): (i: int)
    ensures -1 <= i < |entries|
    ensures i >= 0 ==> Key(kind, entries[i].item) == key
    ensures forall j | i < j < |entries| :: Key(kind, entries[j].item) != key
  {
    if entries == [] then -1
    else
      var n := |entries| - 1;
      if Key(kind, entries[n].item) == key then n else LastIndex(entries[..n], kind, key)
  }

  /** The code's own test: the tag stored last for the key does not start with the current suite's name. */
  predicate Collides(entries: seq<Entry>, k: nat, kind: Kind) {
    k < |entries|
    && var i := LastIndex(entries[..k], kind, Key(kind, entries[k].item));
       i >= 0 && Head(Tag(entries[i])) != entries[k].suite
  }

  predicate Rejected(entries: seq<Entry>) {
    exists k: nat, kind | k < |entries| :: Collides(entries, k, kind)
  }

  // ---------- the nested loops ----------

  /** The dictionary holds, for every key seen, the tag of its latest case. */
  ghost predicate Stored(seen: map<string, string>, entries: seq<Entry>, kind: Kind) {
    forall key :: var i := LastIndex(entries, kind, key);
      (key in seen <==> i >= 0) && (i >= 0 ==> seen[key] == Tag(entries[i]))
  }

  lemma {:induction false} StoredStep(seen: map<string, string>, entries: seq<Entry>, kind: Kind, e: Entry)
    requires Stored(seen, entries, kind)
    ensures Stored(seen[Key(kind, e.item) := Tag(e)], entries + [e], kind)
  {
    var all := entries + [e];
    assert all[..|entries|] == entries;
    forall key ensures LastIndex(all, kind, key) == if key == Key(kind, e.item) then |entries| else LastIndex(entries, kind, key) {
    }
  }

  lemma {:induction false} RejectedSnoc(entries: seq<Entry>, e: Entry)
    requires !Rejected(entries)
    ensures var all := entries + [e];
      Rejected(all) <==> Collides(all, |entries|, Question) || Collides(all, |entries|, Signature)
  {
    var all := entries + [e];
    forall k: nat, kind | k < |entries| ensures !Collides(all, k, kind) {
      assert all[..k] == entries[..k];
      assert !Collides(entries, k, kind);
    }
    if Collides(all, |entries|, Question) || Collides(all, |entries|, Signature) {
      assert Rejected(all);
    }
  }

  lemma {:induction false} RejectedLater(a: seq<Entry>, b: seq<Entry>)
    requires Rejected(a)
    ensures Rejected(a + b)
  {
    var k: nat, kind :| k < |a| && Collides(a, k, kind);
    assert (a + b)[..k] == a[..k];
    assert Collides(a + b, k, kind);
  }

  lemma {:induction false} EntriesSnoc(suites: seq<Suite>, i: nat)
    requires i < |suites|
    ensures Entries(suites[..i + 1]) == Entries(suites[..i]) + EntriesOf(suites[i].name, suites[i].cases)
  {
    assert suites[..i + 1][..i] == suites[..i];
  }

  lemma {:induction false} EntriesPrefix(suites: seq<Suite>, i: nat)
    requires i <= |suites|
    ensures Entries(suites[..i]) <= Entries(suites)
  {
    var n := |suites| - 1;
    if i <= n {
      EntriesPrefix(suites[..n], i);
      assert suites[..n][..i] == suites[..i];
    } else {
      assert suites[..i] == suites;
    }
  }

  ghost predicate Kept(questions: map<string, string>, plans: map<string, string>, done: seq<Entry>) {
    Stored(questions, done, Question) && Stored(plans, done, Signature) && !Rejected(done)
  }

  /** The two tests of the loop body. */
  predicate Clash(questions: map<string, string>, plans: map<string, string>, e: Entry) {
    || (e.item.question in questions && Head(questions[e.item.question]) != e.suite)
    || (e.item.signature in plans && Head(plans[e.item.signature]) != e.suite)
  }

  lemma {:induction false} KeptStep(questions: map<string, string>, plans: map<string, string>, done: seq<Entry>, e: Entry)
    requires Kept(questions, plans, done)
    ensures Clash(questions, plans, e) <==> Rejected(done + [e])
    ensures !Clash(questions, plans, e) ==>
      Kept(questions[e.item.question := Tag(e)], plans[e.item.signature := Tag(e)], done + [e])
  {
    var all := done + [e];
    assert all[..|done|] == done;
    RejectedSnoc(done, e);
    StoredStep(questions, done, Question, e);
    StoredStep(plans, done, Signature, e);
  }

  lemma {:induction false} EntriesOfSnoc(name: string, cases: seq<Case>, j: nat)
    requires j < |cases|
    ensures EntriesOf(name, cases[..j + 1]) == EntriesOf(name, cases[..j]) + [Entry(name, cases[j])]
  {
  }

  lemma {:induction false} EntriesOfSplit(name: string, cases: seq<Case>, j: nat)
    requires j <= |cases|
    ensures EntriesOf(name, cases) == EntriesOf(name, cases[..j]) + EntriesOf(name, cases[j..])
  {
  }

  lemma {:induction false} CaseParts(done: seq<Entry>, name: string, cases: seq<Case>, j: nat)
    requires j < |cases|
    ensures done + EntriesOf(name, cases[..j + 1]) == done + EntriesOf(name, cases[..j]) + [Entry(name, cases[j])]
    ensures done + EntriesOf(name, cases) == done + EntriesOf(name, cases[..j + 1]) + EntriesOf(name, cases[j + 1..])
  {
    EntriesOfSnoc(name, cases, j);
    EntriesOfSplit(name, cases, j + 1);
    Associates(done, EntriesOf(name, cases[..j]), [Entry(name, cases[j])]);
    Associates(done, EntriesOf(name, cases[..j + 1]), EntriesOf(name, cases[j + 1..]));
  }

  lemma {:induction false} Associates<T>(a: seq<T>, b: seq<T>, c: seq<T>)
    ensures a + (b + c) == a + b + c
  {
  }

  /** A rejection stays whatever follows. */
  lemma {:induction false} RejectionStays(a: seq<Entry>, b: seq<Entry>, all: seq<Entry>)
    requires all == a + b
    ensures Rejected(a) ==> Rejected(all)
  {
    if Rejected(a) { RejectedLater(a, b); }
  }

  lemma {:induction false} CaseStep(done: seq<Entry>, name: string, cases: seq<Case>, j: nat)
    requires j < |cases|
    ensures done + EntriesOf(name, cases[..j + 1]) == done + EntriesOf(name, cases[..j]) + [Entry(name, cases[j])]
    ensures Rejected(done + EntriesOf(name, cases[..j + 1])) ==> Rejected(done + EntriesOf(name, cases))
  {
    CaseParts(done, name, cases, j);
    RejectionStays(done + EntriesOf(name, cases[..j + 1]), EntriesOf(name, cases[j + 1..]), done + EntriesOf(name, cases));
  }

  /** The inner loop, over the cases of one suite. */
  method CheckSuite(
    name: string, cases: seq<Case>, questions: map<string, string>, plans: map<string, string>, ghost done: seq<Entry>)
    returns (ok: bool, q: map<string, string>, p: map<string, string>)
    requires Kept(questions, plans, done)
    ensures ok <==> !Rejected(done + EntriesOf(name, cases))
    ensures ok ==> Kept(q, p, done + EntriesOf(name, cases))
  {
    q, p := questions, plans;
    assert done + EntriesOf(name, cases[..0]) == done;
    for j := 0 to |cases|
      invariant Kept(q, p, done + EntriesOf(name, cases[..j]))
    {
      var e := Entry(name, cases[j]);
      KeptStep(q, p, done + EntriesOf(name, cases[..j]), e);
      CaseStep(done, name, cases, j);
      if Clash(q, p, e) { return false, q, p; }
      q, p := q[e.item.question := Tag(e)], p[e.item.signature := Tag(e)];
    }
    assert cases[..|cases|] == cases;
    ok := true;
  }

  lemma {:induction false} PrefixRejected(a: seq<Entry>, all: seq<Entry>)
    requires a <= all
    ensures Rejected(a) ==> Rejected(all)
  {
    RejectionStays(a, all[|a|..], all);
  }

  lemma {:induction false} SuiteRejected(suites: seq<Suite>, i: nat)
    requires i <= |suites|
    ensures Rejected(Entries(suites[..i])) ==> Rejected(Entries(suites))
  {
    EntriesPrefix(suites, i);
    PrefixRejected(Entries(suites[..i]), Entries(suites));
  }

  /** The loop of `_reject_cross_suite_collisions`. */
  method Check(suites: seq<Suite>) returns (ok: bool)
    ensures ok <==> !Rejected(Entries(suites))
  {
    var questions, plans := map[], map[];
    for i := 0 to |suites|
      invariant Kept(questions, plans, Entries(suites[..i]))
    {
      var fine;
      fine, questions, plans := CheckSuite(suites[i].name, suites[i].cases, questions, plans, Entries(suites[..i]));
      EntriesSnoc(suites, i);
      SuiteRejected(suites, i + 1);
      if !fine { return false; }
    }
    assert suites[..|suites|] == suites;
    ok := true;
  }

  // ---------- when the check is right ----------

  lemma {:induction false} HeadOfTag(e: Entry)
    ensures Head(Tag(e)) == e.suite <==> ':' !in e.suite
  {
    var k := IndexOf(':', e.suite);
    var head, rest := e.suite[..k], if k < |e.suite| then e.suite[k + 1..] + ":" + e.item.caseId else e.item.caseId;
    assert Tag(e) == head + [':'] + rest;
    IndexOfFirst(':', head, rest);
    assert Head(Tag(e)) == head;
    if k == |e.suite| {
      assert head == e.suite;
    } else {
      assert e.suite[k] == ':';
    }
  }

  predicate ColonFree(entries: seq<Entry>) {
    forall e | e in entries :: ':' !in e.suite
  }

  /** Although only the latest tag of a key is kept, a shared key shows at two consecutive occurrences. */
  lemma {:induction false} SharedCollides(entries: seq<Entry>, i: nat, j: nat, kind: Kind)
    requires ColonFree(entries) && Shared(entries, i, j, kind)
    ensures Rejected(entries)
    decreases j
  {
    var p := LastIndex(entries[..j], kind, Key(kind, entries[j].item));
    assert entries[..j][i] == entries[i];
    assert entries[..j][p] == entries[p] && entries[p] in entries;
    HeadOfTag(entries[p]);
    if entries[p].suite == entries[j].suite {
      SharedCollides(entries, i, p, kind);
    } else {
      assert Collides(entries, j, kind);
    }
  }

  lemma {:induction false} CollidesShared(entries: seq<Entry>, k: nat, kind: Kind)
    requires ColonFree(entries) && Collides(entries, k, kind)
    ensures CrossDuplicate(entries)
  {
    var i := LastIndex(entries[..k], kind, Key(kind, entries[k].item));
    assert entries[..k][i] == entries[i] && entries[i] in entries;
    HeadOfTag(entries[i]);
    assert Shared(entries, i, k, kind);
  }

  lemma {:induction false} ColonFreeExact(entries: seq<Entry>)
    requires ColonFree(entries)
    ensures Rejected(entries) <==> CrossDuplicate(entries)
  {
    if Rejected(entries) {
      var k: nat, kind :| k < |entries| && Collides(entries, k, kind);
      CollidesShared(entries, k, kind);
    }
    if CrossDuplicate(entries) {
      var i: nat, j: nat, kind :| i < j < |entries| && Shared(entries, i, j, kind);
      SharedCollides(entries, i, j, kind);
    }
  }

  lemma {:induction false} EntriesNamed(suites: seq<Suite>, e: Entry)
    requires e in Entries(suites)
    ensures exists s | s in suites :: s.name == e.suite
  {
    var n := |suites| - 1;
    if e in Entries(suites[..n]) {
      EntriesNamed(suites[..n], e);
    } else {
      assert suites[n].name == e.suite;
    }
  }

  // ---------- promotion ----------

  /** `suites[destination] = (*suites.get(destination, ()), *incoming)` */
  function Promoted(suites: seq<Suite>, destination: string, incoming: seq<Case>): (r: seq<Suite>) {
    if suites == [] then [Suite(destination, incoming)]
    else if suites[0].name == destination then [Suite(destination, suites[0].cases + incoming)] + suites[1..]
    else [suites[0]] + Promoted(suites[1..], destination, incoming)
  }

  /** The reviewed suites come from fixed directories, whose names hold no colon. */
  predicate Reviewed(suites: seq<Suite>) {
    forall s | s in suites :: ':' !in s.name
  }

  lemma {:induction false} ReviewedEntries(suites: seq<Suite>)
    requires Reviewed(suites)
    ensures ColonFree(Entries(suites))
  {
    forall e | e in Entries(suites) ensures ':' !in e.suite {
      EntriesNamed(suites, e);
    }
  }

  lemma {:induction false} PromotedNames(suites: seq<Suite>, destination: string, incoming: seq<Case>)
    requires ':' !in destination && Reviewed(suites)
    ensures Reviewed(Promoted(suites, destination, incoming))
  {
    if suites != [] && suites[0].name != destination {
      PromotedNames(suites[1..], destination, incoming);
    }
  }

  /** A destination with a colon is a new suite, and so the last one. */
  lemma {:induction false} PromotedLast(suites: seq<Suite>, destination: string, incoming: seq<Case>)
    requires ':' in destination && Reviewed(suites)
    ensures Promoted(suites, destination, incoming) == suites + [Suite(destination, incoming)]
    ensures Entries(Promoted(suites, destination, incoming)) == Entries(suites) + EntriesOf(destination, incoming)
  {
    var all := suites + [Suite(destination, incoming)];
    assert all[..|suites|] == suites;
    if suites != [] {
      PromotedLast(suites[1..], destination, incoming);
      assert suites == [suites[0]] + suites[1..];
    }
  }

  /** Two of the cases have one question or one plan. */
  predicate SharesKey(cases: seq<Case>) {
    exists i: nat, j: nat, kind | i < j < |cases| :: Key(kind, cases[i]) == Key(kind, cases[j])
  }

  /** In a last suite whose name holds a colon, any key met before collides. */
  lemma {:induction false} LateCollides(entries: seq<Entry>, name: string, cases: seq<Case>, i: nat, j: nat, kind: Kind)
    requires ColonFree(entries) && ':' in name
    requires |entries| <= j < |entries| + |cases| && i < j
    requires var all := entries + EntriesOf(name, cases); Key(kind, all[i].item) == Key(kind, all[j].item)
    ensures Rejected(entries + EntriesOf(name, cases))
  {
    var all := entries + EntriesOf(name, cases);
    var p := LastIndex(all[..j], kind, Key(kind, all[j].item));
    assert all[..j][i] == all[i] && all[..j][p] == all[p];
    HeadOfTag(all[p]);
    if p < |entries| { assert all[p] == entries[p] && entries[p] in entries; }
    assert Collides(all, j, kind);
  }

  lemma {:induction false} CrossLater(a: seq<Entry>, b: seq<Entry>)
    requires CrossDuplicate(a)
    ensures CrossDuplicate(a + b)
  {
    var i: nat, j: nat, kind :| i < j < |a| && Shared(a, i, j, kind);
    assert Shared(a + b, i, j, kind);
  }

  lemma {:induction false} ColonRejects(entries: seq<Entry>, name: string, cases: seq<Case>)
    requires ColonFree(entries) && ':' in name
    requires CrossDuplicate(entries + EntriesOf(name, cases)) || SharesKey(cases)
    ensures Rejected(entries + EntriesOf(name, cases))
  {
    var all, n := entries + EntriesOf(name, cases), |entries|;
    if SharesKey(cases) {
      var i: nat, j: nat, kind :| i < j < |cases| && Key(kind, cases[i]) == Key(kind, cases[j]);
      assert all[n + i].item == cases[i] && all[n + j].item == cases[j];
      LateCollides(entries, name, cases, n + i, n + j, kind);
    } else {
      var i: nat, j: nat, kind :| i < j < |all| && Shared(all, i, j, kind);
      if j < n {
        assert Shared(entries, i, j, kind);
        SharedCollides(entries, i, j, kind);
        RejectedLater(entries, EntriesOf(name, cases));
      } else {
        LateCollides(entries, name, cases, i, j, kind);
      }
    }
  }

  lemma {:induction false} ColonCollision(entries: seq<Entry>, name: string, cases: seq<Case>, k: nat, kind: Kind)
    requires ColonFree(entries) && ':' in name && Collides(entries + EntriesOf(name, cases), k, kind)
    ensures CrossDuplicate(entries + EntriesOf(name, cases)) || SharesKey(cases)
  {
    var all, n := entries + EntriesOf(name, cases), |entries|;
    if k < n {
      assert all[..k] == entries[..k];
      assert Collides(entries, k, kind);
      CollidesShared(entries, k, kind);
      CrossLater(entries, EntriesOf(name, cases));
    } else {
      var i := LastIndex(all[..k], kind, Key(kind, all[k].item));
      assert all[..k][i] == all[i];
      if i < n {
        assert all[i] == entries[i] && entries[i] in entries;
        assert Shared(all, i, k, kind);
      } else {
        assert all[i].item == cases[i - n] && all[k].item == cases[k - n];
        assert Key(kind, cases[i - n]) == Key(kind, cases[k - n]);
      }
    }
  }

  /** Into a destination with a colon: rejected exactly for a cross-suite duplicate, or for a repetition among the
      incoming cases themselves. */
  lemma {:induction false} ColonDestination(suites: seq<Suite>, destination: string, incoming: seq<Case>)
    requires Reviewed(suites) && ':' in destination
    ensures var entries := Entries(Promoted(suites, destination, incoming));
      Rejected(entries) <==> CrossDuplicate(entries) || SharesKey(incoming)
  {
    PromotedLast(suites, destination, incoming);
    ReviewedEntries(suites);
    var all := Entries(suites) + EntriesOf(destination, incoming);
    if CrossDuplicate(all) || SharesKey(incoming) {
      ColonRejects(Entries(suites), destination, incoming);
    }
    if Rejected(all) {
      var k: nat, kind :| k < |all| && Collides(all, k, kind);
      ColonCollision(Entries(suites), destination, incoming, k, kind);
    }
  }

  /** Into any other destination: rejected exactly for a cross-suite duplicate. */
  lemma {:induction false} PlainDestination(suites: seq<Suite>, destination: string, incoming: seq<Case>)
    requires Reviewed(suites) && ':' !in destination
    ensures var entries := Entries(Promoted(suites, destination, incoming)); Rejected(entries) <==> CrossDuplicate(entries)
  {
    var all := Promoted(suites, destination, incoming);
    PromotedNames(suites, destination, incoming);
    ReviewedEntries(all);
    ColonFreeExact(Entries(all));
  }

  /** No entry has a question or a plan of the case. */
  predicate Unseen(entries: seq<Entry>, c: Case) {
    forall i: nat, kind: Kind | i < |entries| :: Key(kind, entries[i].item) != Key(kind, c)
  }

  /** The one error: new cases that repeat each other are turned away from a destination with a colon, although no
      other suite has anything in common with them. */
  lemma {:induction false} ColonRejectsItself(suites: seq<Suite>, destination: string, c: Case, d: Case, kind: Kind)
    requires Reviewed(suites) && ':' in destination && Key(kind, c) == Key(kind, d)
    requires Unseen(Entries(suites), c) && Unseen(Entries(suites), d) && !CrossDuplicate(Entries(suites))
    ensures var entries := Entries(Promoted(suites, destination, [c, d])); Rejected(entries) && !CrossDuplicate(entries)
  {
    PromotedLast(suites, destination, [c, d]);
    ColonDestination(suites, destination, [c, d]);
    assert Key(kind, [c, d][0]) == Key(kind, [c, d][1]);
    var known, all := Entries(suites), Entries(suites) + EntriesOf(destination, [c, d]);
    forall i: nat, j: nat, k: Kind | i < j < |all| ensures !Shared(all, i, j, k) {
      if j < |known| {
        assert !Shared(known, i, j, k);
      } else if i < |known| {
        assert all[j].item == c || all[j].item == d;
      }
    }
  }

  /** `_reject_cross_suite_collisions`. No cross-suite duplicate is ever let through, whatever the destination is called;
      nothing else is turned away, unless the destination's name holds a colon and incoming cases repeat each other. */
  method AcceptPromotion(suites: seq<Suite>, destination: string, incoming: seq<Case>) returns (ok: bool)
    requires Reviewed(suites)
    ensures var entries := Entries(Promoted(suites, destination, incoming));
      ok <==> !CrossDuplicate(entries) && !(':' in destination && SharesKey(incoming))
  {
    if ':' in destination {
      ColonDestination(suites, destination, incoming);
    } else {
      PlainDestination(suites, destination, incoming);
    }
    ok := Check(Promoted(suites, destination, incoming));
  }
}
