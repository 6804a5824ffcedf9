/** What every action is checked against before it is executed
    (src/application/services/action-policy.service.ts). */
module ActionPolicy {
  import opened Domain

  /** The part of a text before and after its first `*`, joined. */
  function WithoutStar(route: string): string {
    if route == "" then ""
    else if route[0] == '*' then route[1..]
    else [route[0]] + WithoutStar(route[1..])
  }

  predicate SemanticFailure(a: AttemptRecord) {
    a.actionType in {"click", "fill", "select", "press", "clickOutside"} && a.result == Failed
  }

  /** Navigation stays on the allowed routes, and clicking at coordinates needs three failed semantic actions
      first. */
  predicate Allows(routes: seq<string>, a: QaAction, attempts: seq<AttemptRecord>) {
    && (a.Navigate? && routes != [] ==> exists route <- routes :: WithoutStar(route) <= a.route)
    && (a.ClickAtCoordinates? ==> |Filter(attempts, SemanticFailure)| >= 3)
  }

  // ----- what that allows

  predicate BeginsWith(text: string, part: string) {
    |part| <= |text| && text[..|part|] == part
  }

  /** The first star of a text stands at `k`. */
  predicate FirstStarAt(text: string, k: nat) {
    k < |text| && text[k] == '*' && '*' !in text[..k]
  }

  /** The route lies under a listed one: it begins with it, or, when that has a star, with what stands before the
      first star and right behind it. */
  ghost predicate Under(route: string, listed: string) {
    if '*' !in listed then BeginsWith(route, listed)
    else exists k: nat :: FirstStarAt(listed, k) && BeginsWith(route, listed[..k] + listed[k + 1..])
  }

  /** An attempt at one of the actions on an element or on the page failed. */
  predicate FailedOnPage(a: AttemptRecord) {
    && a.result.Failed?
    && (a.actionType == "click" || a.actionType == "fill" || a.actionType == "select" || a.actionType == "press"
        || a.actionType == "clickOutside")
  }

  ghost predicate ThreeFailed(attempts: seq<AttemptRecord>) {
    exists i, j, k :: 0 <= i < j < k < |attempts|
      && FailedOnPage(attempts[i]) && FailedOnPage(attempts[j]) && FailedOnPage(attempts[k])
  }

  /** The action keeps the policy: navigation is to somewhere under a listed route, if any is listed; a click at
      coordinates comes after three failures; and there is nothing to keep for any other action. */
  ghost predicate Abides(routes: seq<string>, a: QaAction, attempts: seq<AttemptRecord>) {
    match a
    case Navigate(route, _) => routes == [] || exists listed :: listed in routes && Under(route, listed)
    case ClickAtCoordinates(_, _, _) => ThreeFailed(attempts)
    case _ => true
  }

  /** Of the records made of executed actions those count that are of a click, a fill, a selection, a key or a click
      outside that failed; actions of a kind without a model of its own count by its name. */
  lemma CountsExactly(a: QaAction, result: AttemptResult)
    requires !a.Other?
    ensures FailedOnPage(AttemptRecord(a.TypeName(), result))
      <==> result == Failed && (a.Click? || a.Fill? || a.Select? || a.Press? || a.ClickOutside?)
  {
  }

  lemma {:induction false} NoStarStays(text: string)
    requires '*' !in text
    ensures WithoutStar(text) == text
  {
    if text != "" {
      NoStarStays(text[1..]);
      assert text == [text[0]] + text[1..];
    }
  }

  lemma {:induction false} FirstStarGoes(text: string, k: nat)
    requires FirstStarAt(text, k)
    ensures WithoutStar(text) == text[..k] + text[k + 1..]
  {
    if k > 0 {
      assert text[0] in text[..k];
      assert text[1..][..k - 1] == text[..k][1..];
      FirstStarGoes(text[1..], k - 1);
      assert text[..k] == [text[0]] + text[1..][..k - 1];
    }
  }

  lemma {:induction false} SomeStarIsFirst(text: string) returns (k: nat)
    requires '*' in text
    ensures FirstStarAt(text, k)
  {
    if text[0] == '*' {
      k := 0;
    } else {
      var n := SomeStarIsFirst(text[1..]);
      k := n + 1;
      assert text[..k] == [text[0]] + text[1..][..n];
    }
  }

  lemma UnderExactly(route: string, listed: string)
    ensures WithoutStar(listed) <= route <==> Under(route, listed)
  {
    if '*' !in listed {
      NoStarStays(listed);
    } else {
      var k := SomeStarIsFirst(listed);
      FirstStarGoes(listed, k);
      forall n: nat | FirstStarAt(listed, n)
        ensures WithoutStar(listed) == listed[..n] + listed[n + 1..]
      {
        FirstStarGoes(listed, n);
      }
    }
  }

  /** There is one more failure exactly when behind some failure there are the others. */
  lemma {:induction false} MoreFailures(attempts: seq<AttemptRecord>, n: nat)
    ensures |Filter(attempts, SemanticFailure)| >= n + 1 <==> exists i :: OneBefore(attempts, i, n)
  {
    if attempts != [] {
      var rest := attempts[1..];
      MoreFailures(rest, n);
      if |Filter(attempts, SemanticFailure)| >= n + 1 {
        if FailedOnPage(attempts[0]) {
          assert OneBefore(attempts, 0, n);
        } else {
          var i :| OneBefore(rest, i, n);
          assert rest[i + 1..] == attempts[i + 2..] && OneBefore(attempts, i + 1, n);
        }
      }
      if i :| OneBefore(attempts, i, n) {
        if i > 0 {
          assert rest[i..] == attempts[i + 1..] && OneBefore(rest, i - 1, n);
        }
      }
    }
  }

  /** The attempt at `i` failed, and so did `n` of those behind it. */
  predicate OneBefore(attempts: seq<AttemptRecord>, i: int, n: nat) {
    0 <= i < |attempts| && FailedOnPage(attempts[i]) && |Filter(attempts[i + 1..], SemanticFailure)| >= n
  }

  lemma CountedFailures(attempts: seq<AttemptRecord>)
    requires |Filter(attempts, SemanticFailure)| >= 3
    ensures ThreeFailed(attempts)
  {
    hide SemanticFailure, FailedOnPage, Filter;
    MoreFailures(attempts, 2);
    var i :| OneBefore(attempts, i, 2);
    var second := attempts[i + 1..];
    MoreFailures(second, 1);
    var j :| OneBefore(second, j, 1);
    var third := second[j + 1..];
    MoreFailures(third, 0);
    var k :| OneBefore(third, k, 0);
    assert second[j] == attempts[i + 1 + j] && third[k] == second[j + 1 + k] == attempts[i + j + k + 2];
  }

  lemma FailuresAreCounted(attempts: seq<AttemptRecord>, i: nat, j: nat, k: nat)
    requires i < j < k < |attempts|
    requires FailedOnPage(attempts[i]) && FailedOnPage(attempts[j]) && FailedOnPage(attempts[k])
    ensures |Filter(attempts, SemanticFailure)| >= 3
  {
    hide SemanticFailure, FailedOnPage, Filter;
    var second := attempts[i + 1..];
    var third := second[j - i..];
    assert second[j - i - 1] == attempts[j] && third[k - j - 1] == attempts[k];
    MoreFailures(third, 0);
    assert OneBefore(third, k - j - 1, 0);
    MoreFailures(second, 1);
    assert OneBefore(second, j - i - 1, 1);
    MoreFailures(attempts, 2);
    assert OneBefore(attempts, i, 2);
  }

  lemma ThreeFailedExactly(attempts: seq<AttemptRecord>)
    ensures |Filter(attempts, SemanticFailure)| >= 3 <==> ThreeFailed(attempts)
  {
    hide SemanticFailure, FailedOnPage, Filter;
    if |Filter(attempts, SemanticFailure)| >= 3 {
      CountedFailures(attempts);
    }
    if ThreeFailed(attempts) {
      var i: nat, j: nat, k: nat :| i < j < k < |attempts|
        && FailedOnPage(attempts[i]) && FailedOnPage(attempts[j]) && FailedOnPage(attempts[k]);
      FailuresAreCounted(attempts, i, j, k);
    }
  }

  /** The policy allows exactly the actions that keep it, whatever is listed and wherever the stars stand. */
  lemma AllowsExactly(routes: seq<string>, a: QaAction, attempts: seq<AttemptRecord>)
    ensures Allows(routes, a, attempts) <==> Abides(routes, a, attempts)
  {
    hide Under, ThreeFailed, SemanticFailure, WithoutStar;
    ThreeFailedExactly(attempts);
    if a.Navigate? {
      forall listed: string
        ensures WithoutStar(listed) <= a.route <==> Under(a.route, listed)
      {
        UnderExactly(a.route, listed);
      }
    }
  }

  /** A listed route with a star at its end allows whatever continues it. */
  lemma StarredRouteAllows(routes: seq<string>, prefix: string, rest: string, reason: string,
                           attempts: seq<AttemptRecord>)
    requires prefix + "*" in routes && '*' !in prefix
    ensures Allows(routes, Navigate(prefix + rest, reason), attempts)
  {
    var listed := prefix + "*";
    assert listed[..|prefix|] == prefix && FirstStarAt(listed, |prefix|);
    assert listed[..|prefix|] + listed[|prefix| + 1..] == prefix && (prefix + rest)[..|prefix|] == prefix;
    assert Under(prefix + rest, listed);
    AllowsExactly(routes, Navigate(prefix + rest, reason), attempts);
  }

  /** The route without the star at its end, if it has one. */
  function Stem(listed: string): string {
    if listed != "" && listed[|listed| - 1] == '*' then listed[..|listed| - 1] else listed
  }

  /** When stars stand at the ends only, a navigation is allowed exactly when nothing is listed or it begins with
      what stands before the star of a listed route. */
  lemma StemsAllowExactly(routes: seq<string>, route: string, reason: string, attempts: seq<AttemptRecord>)
    requires forall listed <- routes :: '*' !in Stem(listed)
    ensures Allows(routes, Navigate(route, reason), attempts)
      <==> routes == [] || exists listed :: listed in routes && BeginsWith(route, Stem(listed))
  {
    hide Under;
    AllowsExactly(routes, Navigate(route, reason), attempts);
    forall listed | listed in routes
      ensures Under(route, listed) <==> BeginsWith(route, Stem(listed))
    {
      StemIsUnder(route, listed);
    }
  }

  lemma StemIsUnder(route: string, listed: string)
    requires '*' !in Stem(listed)
    ensures Under(route, listed) <==> BeginsWith(route, Stem(listed))
  {
    var n := |listed| - 1;
    if '*' in listed {
      assert listed == listed[..n] + [listed[n]];
      assert FirstStarAt(listed, n) && listed[..n] + listed[n + 1..] == Stem(listed);
      FirstStarGoes(listed, n);
      UnderExactly(route, listed);
    } else {
      assert listed == "" || listed[n] in listed;
    }
  }

  /** A star in the middle stands for nothing: it is left out, so that the route it seems to cover is refused and one
      without anything in its place is allowed. */
  lemma MiddleStarIsNoWildcard(head: string, tail: string, between: string, reason: string,
                               attempts: seq<AttemptRecord>)
    requires '*' !in head && tail != "" && between != "" && between[0] != tail[0]
    ensures !Allows([head + "*" + tail], Navigate(head + between + tail, reason), attempts)
    ensures Allows([head + "*" + tail], Navigate(head + tail, reason), attempts)
  {
    var listed, wanted := head + "*" + tail, head + between + tail;
    assert listed[..|head|] == head && FirstStarAt(listed, |head|);
    assert listed[|head| + 1..] == tail;
    FirstStarGoes(listed, |head|);
    assert WithoutStar(listed) == head + tail;
    assert (head + tail)[|head|] == tail[0] && wanted[|head|] == between[0];
    assert !(head + tail <= wanted);
    assert listed in [listed];
  }
}
