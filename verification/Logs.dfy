/** What is shown of a log of values, some of them absent: the last one, or the greatest. */
module Logs {
  import opened Wrappers
  import opened MergeReducer

  /** The time is known and none before it is later. */
  ghost predicate NotOlder(t: Option<int>, earlier: seq<Option<int>>) {
    t.Some? && forall i :: 0 <= i < |earlier| && earlier[i].Some? ==> earlier[i].value <= t.value
  }

  /** The last one given is shown, or none was given. */
  ghost predicate ShowsLast<T>(given: seq<Option<T>>, shown: Option<T>) {
    if shown.None? then forall i :: 0 <= i < |given| ==> given[i].None?
    else exists i :: 0 <= i < |given| && given[i] == shown && forall j :: i < j < |given| ==> given[j].None?
  }

  /** The greatest one given is shown, or none was given. */
  ghost predicate ShowsGreatest(given: seq<Option<int>>, shown: Option<int>) {
    if shown.None? then forall i :: 0 <= i < |given| ==> given[i].None?
    else
      && (exists i :: 0 <= i < |given| && given[i] == shown)
      && (forall i :: 0 <= i < |given| && given[i].Some? ==> given[i].value <= shown.value)
  }

  lemma LastGrows<T>(given: seq<Option<T>>, shown: Option<T>, more: Option<T>)
    requires ShowsLast(given, shown)
    ensures ShowsLast(given + [more], PreferNonNull(more, shown))
  {
    var all := given + [more];
    if more.Some? {
      assert all[|given|] == more;
    } else if shown.Some? {
      var i :| 0 <= i < |given| && given[i] == shown && forall j :: i < j < |given| ==> given[j].None?;
      assert all[i] == shown;
    }
  }

  lemma GreatestGrows(given: seq<Option<int>>, shown: Option<int>, more: Option<int>)
    requires ShowsGreatest(given, shown)
    ensures ShowsGreatest(given + [more], MaxTimestamp(more, shown))
    ensures NotOlder(more, given) <==> IsNewer(more, shown)
  {
    var all := given + [more];
    assert all[|given|] == more;
    if shown.Some? {
      var i :| 0 <= i < |given| && given[i] == shown;
      assert all[i] == shown;
    }
  }

  lemma GreatestIsUnique(given: seq<Option<int>>, a: Option<int>, b: Option<int>)
    requires ShowsGreatest(given, a) && ShowsGreatest(given, b)
    ensures a == b
  {
  }
}
