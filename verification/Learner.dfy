/** The learner's statistics over reported outcomes. */
module Learners {
  import opened Text

  datatype Report = Report(failureMode: string, proposedAction: string, verificationOutcome: string)

  datatype Counts = Counts(attempts: nat, recovered: nat, failed: nat, inconclusive: nat)

  function KeyOf(failureMode: string, proposedAction: string): string { failureMode + "/" + proposedAction }

  function Key(o: Report): string { KeyOf(o.failureMode, o.proposedAction) }

  /** str.upper, for the characters whose upper case is one ASCII letter. */
  function Upper(s: string): string {
    if s == [] then []
    else
      var c := s[0];
      [if 'a' <= c <= 'z' then c - 'a' + 'A' else if c == '\U{0131}' then 'I' else if c == '\U{017F}' then 'S' else c]
      + Upper(s[1..])
  }

  /** Two characters that are one letter in upper case: beside the two cases of an ASCII letter, the dotless i
      and the long s. */
  predicate SameUpper(c: char, letter: char) {
    SameLetter(c, letter) || (c == '\U{0131}' && letter == 'I') || (c == '\U{017F}' && letter == 'S')
  }

  /** The upper case of a text is a name in capitals exactly if the text is that name in whatever case. */
  lemma {:induction false} UpperIsIff(s: string, name: string)
    requires forall c <- name :: 'A' <= c <= 'Z'
    ensures Upper(s) == name <==> |s| == |name| && forall i :: 0 <= i < |s| ==> SameUpper(s[i], name[i])
  {
    hide SameUpper;
    UpperLength(s);
    if s != [] && |s| == |name| {
      assert name[0] in name && forall c <- name[1..] :: c in name;
      UpperIsIff(s[1..], name[1..]);
      UpperStep(s, name);
      assert forall i :: 0 < i < |s| ==> s[i] == s[1..][i - 1] && name[i] == name[1..][i - 1];
    }
  }

  lemma UpperStep(s: string, name: string)
    requires s != [] && name != [] && 'A' <= name[0] <= 'Z'
    ensures Upper(s) == name <==> SameUpper(s[0], name[0]) && Upper(s[1..]) == name[1..]
  {
    assert name == [name[0]] + name[1..];
    assert Upper(s)[1..] == Upper(s[1..]);
    assert SameUpper(s[0], name[0]) <==> Upper(s)[0] == name[0];
  }

  lemma UpperLength(s: string)
    ensures |Upper(s)| == |s|
  {}

  /** What an outcome counts as, beside being an attempt. */
  datatype Class = Attempt | Recovery | Failure | Doubt

  predicate Is(o: Report, kind: Class) {
    match kind
    case Attempt => true
    case Recovery => Upper(o.verificationOutcome) == "RECOVERED"
    case Failure => Upper(o.verificationOutcome) == "FAILED"
    case Doubt => Upper(o.verificationOutcome) == "INCONCLUSIVE"
  }

  /** How many reports of a key are of a class. */
  function Count(os: seq<Report>, key: string, kind: Class): nat {
    if os == [] then 0
    else
      var last := os[|os| - 1];
      Count(os[..|os| - 1], key, kind) + if Key(last) == key && Is(last, kind) then 1 else 0
  }

  function Keys(os: seq<Report>): set<string> { set o <- os :: Key(o) }

  function CountsOf(os: seq<Report>, key: string): Counts {
    Counts(Count(os, key, Attempt), Count(os, key, Recovery), Count(os, key, Failure), Count(os, key, Doubt))
  }

  function Stats(os: seq<Report>): map<string, Counts> {
    map key <- Keys(os) :: CountsOf(os, key)
  }

  /** compute_stats: one pass over the reports with a counter record per key. */
  method ComputeStats(os: seq<Report>) returns (total: nat, raw: map<string, Counts>)
    ensures total == |os| && raw == Stats(os)
  {
    hide Stats, Key, Upper;
    StatsOfNone();
    raw := map[];
    var i := 0;
    while i < |os|
      invariant i <= |os|
      invariant raw == Stats(os[..i])
    {
      var o := os[i];
      var key := Key(o);
      StatsStep(os[..i], o);
      assert os[..i + 1] == os[..i] + [o];
      if key !in raw {
        raw := raw[key := Counts(0, 0, 0, 0)];
      }
      var counts := raw[key];
      counts := counts.(attempts := counts.attempts + 1);
      var vo := Upper(o.verificationOutcome);
      if vo == "RECOVERED" {
        counts := counts.(recovered := counts.recovered + 1);
      } else if vo == "FAILED" {
        counts := counts.(failed := counts.failed + 1);
      } else if vo == "INCONCLUSIVE" {
        counts := counts.(inconclusive := counts.inconclusive + 1);
      }
      raw := raw[key := counts];
      i := i + 1;
    }
    assert os[..i] == os;
    total := |os|;
  }

  lemma StatsOfNone()
    ensures Stats([]) == map[]
  {}

  function One(o: Report, kind: Class): nat { if Is(o, kind) then 1 else 0 }

  lemma CountStep(os: seq<Report>, o: Report, key: string, kind: Class)
    ensures Count(os + [o], key, kind) == Count(os, key, kind) + if Key(o) == key then One(o, kind) else 0
  {
    assert (os + [o])[..|os|] == os;
  }

  lemma {:induction false} AbsentKey(os: seq<Report>, key: string, kind: Class)
    requires key !in Keys(os)
    ensures Count(os, key, kind) == 0
  {
    if os != [] {
      assert os[|os| - 1] in os;
      AbsentKey(os[..|os| - 1], key, kind);
    }
  }

  lemma StatsStep(os: seq<Report>, o: Report)
    ensures var key := Key(o);
            var was := if key in Stats(os) then Stats(os)[key] else Counts(0, 0, 0, 0);
            Stats(os + [o]) == Stats(os)[key := Counts(was.attempts + 1, was.recovered + One(o, Recovery),
                                                       was.failed + One(o, Failure), was.inconclusive + One(o, Doubt))]
  {
    hide Count, Key, Is;
    assert Keys(os + [o]) == Keys(os) + {Key(o)};
    forall key, kind
      ensures Count(os + [o], key, kind) == Count(os, key, kind) + if Key(o) == key then One(o, kind) else 0
      ensures key !in Keys(os) ==> Count(os, key, kind) == 0
    {
      CountStep(os, o, key, kind);
      if key !in Keys(os) {
        AbsentKey(os, key, kind);
      }
    }
    assert Is(o, Attempt) by { IsAttempt(o); }
  }

  lemma IsAttempt(o: Report)
    ensures Is(o, Attempt)
  {}

  // The order of the reports.

  lemma {:induction false} CountRemoved(os: seq<Report>, i: nat, key: string, kind: Class)
    requires i < |os|
    ensures Count(os, key, kind)
         == Count(os[..i] + os[i + 1..], key, kind) + if Key(os[i]) == key then One(os[i], kind) else 0
  {
    hide Key, Is;
    var front, last := os[..|os| - 1], os[|os| - 1];
    assert os == front + [last];
    if i == |os| - 1 {
      assert os[..i] + os[i + 1..] == front;
      CountStep(front, last, key, kind);
    } else {
      CountRemoved(front, i, key, kind);
      assert os[..i] + os[i + 1..] == (front[..i] + front[i + 1..]) + [last];
      CountStep(front, last, key, kind);
      CountStep(front[..i] + front[i + 1..], last, key, kind);
    }
  }

  lemma MultisetRemoved(os: seq<Report>, i: nat)
    requires i < |os|
    ensures multiset(os) == multiset(os[..i] + os[i + 1..]) + multiset{os[i]}
  {
    assert os == os[..i] + [os[i]] + os[i + 1..];
  }

  lemma MultisetCancel(x: multiset<Report>, y: multiset<Report>, o: Report)
    requires x + multiset{o} == y + multiset{o}
    ensures x == y
  {
    assert x == x + multiset{o} - multiset{o} && y == y + multiset{o} - multiset{o};
  }

  lemma {:induction false} CountPermuted(a: seq<Report>, b: seq<Report>, key: string, kind: Class)
    requires multiset(a) == multiset(b)
    ensures Count(a, key, kind) == Count(b, key, kind)
  {
    hide Key, Is;
    if a == [] {
      assert |multiset(b)| == 0;
    } else {
      var front, last := a[..|a| - 1], a[|a| - 1];
      assert a == front + [last];
      assert last in multiset(b);
      var i :| 0 <= i < |b| && b[i] == last;
      MultisetRemoved(b, i);
      assert multiset(a) == multiset(front) + multiset{last};
      MultisetCancel(multiset(front), multiset(b[..i] + b[i + 1..]), last);
      CountPermuted(front, b[..i] + b[i + 1..], key, kind);
      CountStep(front, last, key, kind);
      CountRemoved(b, i, key, kind);
    }
  }

  /** The statistics depend on which outcomes were reported, not on the order of the reports. */
  lemma OrderDoesNotMatter(a: seq<Report>, b: seq<Report>)
    requires multiset(a) == multiset(b)
    ensures Stats(a) == Stats(b)
  {
    hide Count, Key;
    assert forall o :: o in a <==> o in multiset(a);
    assert forall o :: o in b <==> o in multiset(b);
    assert Keys(a) == Keys(b);
    forall key, kind
      ensures Count(a, key, kind) == Count(b, key, kind)
    {
      CountPermuted(a, b, key, kind);
    }
  }

  // Conservation.

  ghost function SumOfAttempts(stats: map<string, Counts>): nat
    decreases |stats|
  {
    if stats == map[] then 0
    else
      var key :| key in stats;
      stats[key].attempts + SumOfAttempts(stats - {key})
  }

  /** Any key may be taken out first. */
  lemma {:induction false} SumWithout(stats: map<string, Counts>, key: string)
    requires key in stats
    ensures SumOfAttempts(stats) == stats[key].attempts + SumOfAttempts(stats - {key})
    decreases |stats|
  {
    var first :| first in stats && SumOfAttempts(stats) == stats[first].attempts + SumOfAttempts(stats - {first});
    if first != key {
      SumWithout(stats - {first}, key);
      SumWithout(stats - {key}, first);
      assert stats - {first} - {key} == stats - {key} - {first};
    }
  }

  /** No report is lost or counted under two keys. */
  lemma {:induction false} AttemptsSumToTotal(os: seq<Report>)
    ensures SumOfAttempts(Stats(os)) == |os|
  {
    hide Count, Key, Is;
    if os == [] {
      assert Stats(os) == map[];
    } else {
      var front, last := os[..|os| - 1], os[|os| - 1];
      assert os == front + [last];
      AttemptsSumToTotal(front);
      StatsStep(front, last);
      var key := Key(last);
      SumWithout(Stats(os), key);
      assert Stats(os) - {key} == Stats(front) - {key};
      if key in Stats(front) {
        SumWithout(Stats(front), key);
      } else {
        assert Stats(front) - {key} == Stats(front);
      }
    }
  }

  /** Only outcomes that reached no known verification result separate the attempts from the results. */
  lemma {:induction false} ResultsWithinAttempts(os: seq<Report>, key: string)
    ensures var c := CountsOf(os, key);
            && c.recovered + c.failed + c.inconclusive <= c.attempts
            && (c.recovered + c.failed + c.inconclusive == c.attempts <==>
                  forall o <- os :: Key(o) == key ==>
                    Upper(o.verificationOutcome) in {"RECOVERED", "FAILED", "INCONCLUSIVE"})
  {
    hide Key, Upper;
    if os != [] {
      var front, last := os[..|os| - 1], os[|os| - 1];
      ResultsWithinAttempts(front, key);
      assert os == front + [last] && last in os;
      assert forall o :: o in os <==> o in front || o == last;
    }
  }

  // What a key stands for.

  /** Two failure modes never share a key exactly if neither, followed by a slash, starts the other. */
  lemma KeysSeparateIff(a: string, c: string)
    requires a != c
    ensures (forall b, d :: KeyOf(a, b) != KeyOf(c, d)) <==> !(a + "/" <= c) && !(c + "/" <= a)
  {
    if a + "/" <= c {
      var rest := c[|a| + 1..];
      assert KeyOf(a, rest + "/") == KeyOf(c, "");
    }
    if c + "/" <= a {
      var rest := a[|c| + 1..];
      assert KeyOf(c, rest + "/") == KeyOf(a, "");
    }
    forall b, d | KeyOf(a, b) == KeyOf(c, d)
      ensures a + "/" <= c || c + "/" <= a
    {
      SharedKey(a, b, c, d);
    }
  }

  lemma SharedKey(a: string, b: string, c: string, d: string)
    requires KeyOf(a, b) == KeyOf(c, d) && a != c
    ensures a + "/" <= c || c + "/" <= a
  {
    var key := KeyOf(a, b);
    assert key[..|a|] == a && key[|a|] == '/' && key[..|c|] == c && key[|c|] == '/';
    assert |a| != |c|;
    if |a| < |c| {
      assert c[..|a|] == a && c[|a|] == '/';
      assert a + "/" == c[..|a| + 1];
    } else if |c| < |a| {
      assert a[..|c|] == c && a[|c|] == '/';
      assert c + "/" == a[..|c| + 1];
    }
  }
}
