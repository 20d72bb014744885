/** The projections of the activity log that the controller recomputes on
    every render: the emotion records, and the distinct names of the
    students who logged in, in the order they first did. */
module Views {
  import opened Types

  // ---------------------------------------------------------------------
  // First occurrences

  predicate NoDuplicates<T(==)>(xs: seq<T>) {
    forall i, j :: 0 <= i < j < |xs| ==> xs[i] != xs[j]
  }

  /** The position of the first occurrence of `x` in `xs`. */
  function FirstIndex<T(==)>(xs: seq<T>, x: T): (k: nat)
    requires x in xs
    ensures k < |xs| && xs[k] == x
  {
    if xs[0] == x then 0 else 1 + FirstIndex(xs[1..], x)
  }

  /** No position before `FirstIndex` holds the element. */
  lemma {:induction false} FirstIndexMinimal<T>(xs: seq<T>, x: T, i: nat)
    requires x in xs && i < FirstIndex(xs, x)
    ensures xs[i] != x
    decreases |xs|
  {
    if i > 0 {
      assert xs[1..][i - 1] == xs[i];
      FirstIndexMinimal(xs[1..], x, i - 1);
    }
  }

  /** A position holding `x` with no `x` before it is `FirstIndex`. */
  lemma {:induction false} FirstIndexIsFirst<T>(xs: seq<T>, x: T, k: nat)
    requires k < |xs| && xs[k] == x
    requires forall i :: 0 <= i < k ==> xs[i] != x
    ensures FirstIndex(xs, x) == k
    decreases |xs|
  {
    if k > 0 {
      assert xs[0] != x;
      assert xs[1..][k - 1] == x;
      forall i | 0 <= i < k - 1 ensures xs[1..][i] != x {
        assert xs[1..][i] == xs[i + 1];
      }
      FirstIndexIsFirst(xs[1..], x, k - 1);
    }
  }

  /** A first occurrence in a prefix is a first occurrence in the whole. */
  lemma FirstIndexPrefix<T>(p: seq<T>, q: seq<T>, x: T)
    requires x in p
    ensures FirstIndex(p + q, x) == FirstIndex(p, x)
  {
    var k := FirstIndex(p, x);
    forall i | 0 <= i < k ensures (p + q)[i] != x {
      FirstIndexMinimal(p, x, i);
    }
    FirstIndexIsFirst(p + q, x, k);
  }

  /** An element missing from `p` first occurs right after it. */
  lemma FirstIndexAfter<T>(p: seq<T>, x: T)
    requires x !in p
    ensures FirstIndex(p + [x], x) == |p|
  {
    forall i | 0 <= i < |p| ensures (p + [x])[i] != x {
      assert (p + [x])[i] == p[i];
    }
    FirstIndexIsFirst(p + [x], x, |p|);
  }

  /** `ys` lists its elements in the order in which they first occur in
      `xs` (which holds every one of them). */
  predicate InFirstOccurrenceOrder<T(==)>(xs: seq<T>, ys: seq<T>) {
    && (forall i :: 0 <= i < |ys| ==> ys[i] in xs)
    && (forall i, j :: 0 <= i < j < |ys| ==> FirstIndex(xs, ys[i]) < FirstIndex(xs, ys[j]))
  }

  // ---------------------------------------------------------------------
  // De-duplication

  /** Distinct elements of `xs`, each kept where it first occurs: what
      spreading a JavaScript `Set` built from `xs` yields, since a `Set`
      iterates in insertion order and ignores repeated insertions. */
  function Dedup<T(==)>(xs: seq<T>): (r: seq<T>)
    ensures |r| <= |xs|
    decreases |xs|
  {
    if |xs| == 0 then []
    else
      var d := Dedup(xs[..|xs| - 1]);
      var last := xs[|xs| - 1];
      if last in d then d else d + [last]
  }

  /** Inserting into a JavaScript `Set`: a new element goes to the end, a
      repeated one changes nothing. */
  lemma DedupSnoc<T>(xs: seq<T>, x: T)
    ensures Dedup(xs + [x]) == if x in Dedup(xs) then Dedup(xs) else Dedup(xs) + [x]
  {
    assert (xs + [x])[..|xs|] == xs;
  }

  /** The de-duplication holds exactly the elements of the list. */
  lemma {:induction false} DedupMembers<T(!new)>(xs: seq<T>)
    ensures forall x :: x in Dedup(xs) <==> x in xs
    decreases |xs|
  {
    if |xs| > 0 {
      var p := xs[..|xs| - 1];
      DedupMembers(p);
      assert xs == p + [xs[|xs| - 1]];
    }
  }

  /** The de-duplication holds each element once. */
  lemma {:induction false} DedupNoDuplicates<T>(xs: seq<T>)
    ensures NoDuplicates(Dedup(xs))
    decreases |xs|
  {
    if |xs| > 0 {
      DedupNoDuplicates(xs[..|xs| - 1]);
    }
  }

  /** An ordered list of elements of `p` stays ordered against `p + [last]`,
      both as it is and, when `last` is new, with `last` appended. */
  lemma OrderSnoc<T(!new)>(p: seq<T>, d: seq<T>, last: T)
    requires InFirstOccurrenceOrder(p, d)
    ensures InFirstOccurrenceOrder(p + [last], d)
    ensures last !in p ==> InFirstOccurrenceOrder(p + [last], d + [last])
  {
    var xs := p + [last];
    forall i | 0 <= i < |d| ensures FirstIndex(xs, d[i]) == FirstIndex(p, d[i]) {
      FirstIndexPrefix(p, [last], d[i]);
    }
    if last !in p {
      FirstIndexAfter(p, last);
      var r := d + [last];
      forall i, j | 0 <= i < j < |r| ensures FirstIndex(xs, r[i]) < FirstIndex(xs, r[j]) {
        assert r[i] == d[i];
        if j < |d| {
          assert r[j] == d[j];
        }
      }
    }
  }

  /** One more element keeps the de-duplication in first-occurrence order. */
  lemma DedupOrderSnoc<T(!new)>(p: seq<T>, last: T)
    requires InFirstOccurrenceOrder(p, Dedup(p))
    ensures InFirstOccurrenceOrder(p + [last], Dedup(p + [last]))
  {
    DedupSnoc(p, last);
    DedupMembers(p);
    OrderSnoc(p, Dedup(p), last);
  }

  lemma {:induction false} DedupOrder<T(!new)>(xs: seq<T>)
    ensures InFirstOccurrenceOrder(xs, Dedup(xs))
    decreases |xs|
  {
    if |xs| > 0 {
      var p := xs[..|xs| - 1];
      DedupOrder(p);
      DedupOrderSnoc(p, xs[|xs| - 1]);
      assert xs == p + [xs[|xs| - 1]];
    }
  }

  /** Dropping the head of an ordered list leaves an ordered list that no
      longer holds the head. */
  lemma OrderTail<T(!new)>(xs: seq<T>, a: seq<T>)
    requires |a| > 0 && InFirstOccurrenceOrder(xs, a)
    ensures InFirstOccurrenceOrder(xs, a[1..])
    ensures forall x :: x in a[1..] <==> x in a && x != a[0]
  {
    var a' := a[1..];
    forall i, j | 0 <= i < j < |a'| ensures FirstIndex(xs, a'[i]) < FirstIndex(xs, a'[j]) {
      assert a'[i] == a[i + 1] && a'[j] == a[j + 1];
    }
    forall x | x in a' ensures x != a[0] {
      var i :| 0 <= i < |a'| && a'[i] == x;
      assert FirstIndex(xs, a[0]) < FirstIndex(xs, a[i + 1]);
    }
    forall x | x in a && x != a[0] ensures x in a' {
      var i :| 0 <= i < |a| && a[i] == x;
      assert a'[i - 1] == x;
    }
  }

  /** The head of an ordered list is its element that occurs first. */
  lemma OrderHeadFirst<T(!new)>(xs: seq<T>, a: seq<T>, y: T)
    requires |a| > 0 && InFirstOccurrenceOrder(xs, a) && y in a
    ensures FirstIndex(xs, a[0]) <= FirstIndex(xs, y)
  {
    var i :| 0 <= i < |a| && a[i] == y;
    if i > 0 {
      assert FirstIndex(xs, a[0]) < FirstIndex(xs, a[i]);
    }
  }

  lemma HeadIn<T>(b: seq<T>)
    requires |b| > 0
    ensures b[0] in b
  {
  }

  /** Two lists with the same elements that are both ordered by first
      occurrence in `xs` are the same list. */
  lemma {:induction false} FirstOccurrenceOrderUnique<T(!new)>(xs: seq<T>, a: seq<T>, b: seq<T>)
    requires InFirstOccurrenceOrder(xs, a) && InFirstOccurrenceOrder(xs, b)
    requires forall x :: x in a <==> x in b
    ensures a == b
    decreases |a|
  {
    if |a| == 0 {
      if |b| != 0 { HeadIn(b); assert false; }
    } else {
      assert a[0] in a && a[0] in b;
      assert |b| != 0 && b[0] in b && b[0] in a;
      OrderHeadFirst(xs, a, b[0]);
      OrderHeadFirst(xs, b, a[0]);
      assert xs[FirstIndex(xs, a[0])] == a[0];
      assert a[0] == b[0];
      OrderTail(xs, a);
      OrderTail(xs, b);
      FirstOccurrenceOrderUnique(xs, a[1..], b[1..]);
      assert a == [a[0]] + a[1..] && b == [b[0]] + b[1..];
    }
  }

  /** `Dedup` is characterised, independently of how it is computed: a list
      is `Dedup(xs)` exactly when it holds the elements of `xs` and lists
      them in order of first occurrence. */
  lemma DedupCharacterised<T(!new)>(xs: seq<T>, ys: seq<T>)
    ensures ys == Dedup(xs) <==>
            InFirstOccurrenceOrder(xs, ys) && (forall x :: x in ys <==> x in xs)
  {
    DedupOrder(xs);
    DedupMembers(xs);
    if InFirstOccurrenceOrder(xs, ys) && (forall x :: x in ys <==> x in xs) {
      FirstOccurrenceOrderUnique(xs, ys, Dedup(xs));
    }
  }

  // ---------------------------------------------------------------------
  // Projections of the log

  /** The records of `log` of type `kind`, in log order
      (`appData.filter(item => item.type === kind)`). */
  function OfKind(log: seq<AppDataItem>, kind: ActivityType): (r: seq<AppDataItem>)
    ensures |r| <= |log|
    ensures forall item :: item in r <==> item in log && item.kind == kind
    decreases |log|
  {
    if |log| == 0 then []
    else
      var rest := OfKind(log[..|log| - 1], kind);
      var last := log[|log| - 1];
      assert log == log[..|log| - 1] + [last];
      if last.kind == kind then rest + [last] else rest
  }

  /** Filtering distributes over concatenation: appending to the log
      appends to every projection, and never reorders it. */
  lemma {:induction false} OfKindAppend(a: seq<AppDataItem>, b: seq<AppDataItem>, kind: ActivityType)
    ensures OfKind(a + b, kind) == OfKind(a, kind) + OfKind(b, kind)
    decreases |b|
  {
    if |b| == 0 {
      assert a + b == a;
    } else {
      var b' := b[..|b| - 1];
      assert (a + b)[..|a + b| - 1] == a + b';
      assert (a + b)[|a + b| - 1] == b[|b| - 1];
      OfKindAppend(a, b', kind);
    }
  }

  /** A log whose records all have type `kind` is its own projection. */
  lemma {:induction false} OfKindAll(log: seq<AppDataItem>, kind: ActivityType)
    requires forall i :: 0 <= i < |log| ==> log[i].kind == kind
    ensures OfKind(log, kind) == log
    decreases |log|
  {
    if |log| > 0 {
      OfKindAll(log[..|log| - 1], kind);
      assert log == log[..|log| - 1] + [log[|log| - 1]];
    }
  }

  /** The `emotionRecords` projection passed to the home screen. */
  function EmotionRecords(log: seq<AppDataItem>): (r: seq<AppDataItem>)
    ensures forall item :: item in r <==> item in log && item.kind == EmotionRecord
  {
    OfKind(log, EmotionRecord)
  }

  /** `emotionRecords` keeps log order: the projection of a concatenation is
      the concatenation of the projections. */
  lemma EmotionRecordsAppend(a: seq<AppDataItem>, b: seq<AppDataItem>)
    ensures EmotionRecords(a + b) == EmotionRecords(a) + EmotionRecords(b)
  {
    OfKindAppend(a, b, EmotionRecord);
  }

  /** `logins.map(item => item.userName)`. */
  function UserNames(items: seq<AppDataItem>): (r: seq<string>)
    ensures |r| == |items|
    ensures forall i :: 0 <= i < |items| ==> r[i] == items[i].userName
    decreases |items|
  {
    if |items| == 0 then [] else UserNames(items[..|items| - 1]) + [items[|items| - 1].userName]
  }

  /** The user names of the login records, one per record, in log order. */
  function LoginNames(log: seq<AppDataItem>): (r: seq<string>)
    ensures |r| == |OfKind(log, StudentLogin)|
  {
    UserNames(OfKind(log, StudentLogin))
  }

  /** A name is among the login names exactly when some login record of
      the log carries it. */
  lemma LoginNamesMembers(log: seq<AppDataItem>)
    ensures forall n :: n in LoginNames(log) <==>
                        exists item :: item in log && item.kind == StudentLogin && item.userName == n
  {
    var logins := OfKind(log, StudentLogin);
    var names := UserNames(logins);
    assert forall n :: n in names ==> exists i :: 0 <= i < |logins| && logins[i].userName == n;
    forall item | item in logins ensures item.userName in names {
      var i :| 0 <= i < |logins| && logins[i] == item;
      assert names[i] == item.userName;
    }
  }

  /** Appending a record adds its name to the login names exactly when it
      is a login record. */
  lemma LoginNamesSnoc(log: seq<AppDataItem>, item: AppDataItem)
    ensures LoginNames(log + [item]) ==
            if item.kind == StudentLogin then LoginNames(log) + [item.userName] else LoginNames(log)
  {
    OfKindAppend(log, [item], StudentLogin);
    var logins := OfKind(log, StudentLogin);
    if item.kind == StudentLogin {
      assert (logins + [item])[..|logins|] == logins;
    } else {
      assert OfKind([item], StudentLogin) == [];
      assert logins + [] == logins;
    }
  }

  /** The `studentLogins` view: every student who logged in, named once, in
      the order of their first login. */
  function StudentLogins(log: seq<AppDataItem>): (r: seq<string>)
    ensures NoDuplicates(r)
    ensures forall n :: n in r <==> exists item :: item in log && item.kind == StudentLogin && item.userName == n
    ensures InFirstOccurrenceOrder(LoginNames(log), r)
  {
    DedupOrder(LoginNames(log));
    DedupMembers(LoginNames(log));
    DedupNoDuplicates(LoginNames(log));
    LoginNamesMembers(log);
    Dedup(LoginNames(log))
  }

  /** `StudentLogins` computed the way the program does: the login names are
      filtered and mapped out of the log, then one pass over them inserts
      each into a set and keeps the names not seen before. */
  method UniqueStudentLogins(log: seq<AppDataItem>) returns (r: seq<string>)
    ensures r == StudentLogins(log)
  {
    var names := LoginNames(log);
    r := [];
    var seen: set<string> := {};
    var i := 0;
    while i < |names|
      invariant 0 <= i <= |names|
      invariant r == Dedup(names[..i])
      invariant forall n :: n in seen <==> n in r
    {
      assert names[..i + 1] == names[..i] + [names[i]];
      DedupSnoc(names[..i], names[i]);
      if names[i] !in seen {
        r := r + [names[i]];
        seen := seen + {names[i]};
      }
      i := i + 1;
    }
    assert names[..i] == names;
  }
}
