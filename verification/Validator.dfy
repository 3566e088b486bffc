/** The check a link expression passes before it is compiled (src/LogicAnalyzer.cpp). */
module Validator {
  import opened Types

  const LIMIT: nat := 1000

  /** Position i starts an effect, the only kind of plugin that settles an earlier uncut mark. */
  predicate EffectAt(request: seq<Token>, plugins: PluginTable, i: nat)
    requires i < |request|
  {
    request[i].Plugin? && IsEffect(plugins, request[i].uid)
  }

  /** A word that may not come between an uncut mark and its effect. */
  predicate Barrier(t: Token) {
    t == And || t == Or || t == Uncut
  }

  /** The uncut mark at i meets an effect before position n, with no barrier on the way. */
  ghost predicate Settled(request: seq<Token>, plugins: PluginTable, i: nat, n: nat)
    requires i < n <= |request|
  {
    exists j :: i < j < n && EffectAt(request, plugins, j) && forall k :: i < k < j ==> !Barrier(request[k])
  }

  /** The uncut mark at i has met neither effect nor barrier before position n. */
  ghost predicate Pending(request: seq<Token>, plugins: PluginTable, i: nat, n: nat)
    requires i < n <= |request|
  {
    && request[i] == Uncut
    && forall k :: i < k < n ==> !EffectAt(request, plugins, k) && !Barrier(request[k])
  }

  /** The word at i is allowed after the word before it. */
  predicate Adjacent(request: seq<Token>, plugins: PluginTable, i: nat)
    requires i < |request|
  {
    && (IsLogicalOperator(request[i]) ==> i > 0 && !IsLogicalOperator(request[i - 1]))
    && (!IsLogicalOperator(request[i]) && i > 0 ==> IsLogicalOperator(request[i - 1]) || request[i - 1] == Uncut)
    && (request[i].Plugin? ==> request[i].uid in plugins)
    && (request[i].Plugin? && i > 0 && request[i - 1] == Colon ==> EffectAt(request, plugins, i))
  }

  /** The language of link expressions, as conditions on positions. */
  ghost predicate Accepts(request: seq<Token>, plugins: PluginTable) {
    && 1 <= |request| <= LIMIT
    && request[|request| - 1].Plugin?
    && (forall i :: 0 <= i < |request| ==> Adjacent(request, plugins, i))
    && (forall i :: 0 <= i < |request| && request[i] == Uncut ==> Settled(request, plugins, i, |request|))
  }

  /** The one-pass scan. */
  method ValidateLogic(request: seq<Token>, plugins: PluginTable) returns (ok: bool)
    ensures ok <==> Accepts(request, plugins)
  {
    if request == [] || |request| > LIMIT {
      return false;
    }
    var begin, end := request[0], request[|request| - 1];
    if IsLogicalOperator(begin) {
      assert !Adjacent(request, plugins, 0);
      return false;
    }
    if IsLogicalOperator(end) || end == Uncut {
      return false;
    }
    var prev: Option<Token> := None;
    var validateUncut := true;
    var i := 0;
    ghost var mark := 0;
    while i < |request|
      invariant 0 <= i <= |request|
      invariant prev == if i == 0 then None else Some(request[i - 1])
      invariant forall k :: 0 <= k < i ==> Adjacent(request, plugins, k)
      invariant !validateUncut ==> mark < i && Pending(request, plugins, mark, i)
      invariant forall k :: 0 <= k < i && request[k] == Uncut ==>
                              Settled(request, plugins, k, i) || (!validateUncut && k == mark)
    {
      var str := request[i];
      ghost var wasPending := !validateUncut;
      if IsLogicalOperator(str) {
        if prev.Some? && IsLogicalOperator(prev.value) {
          assert !Adjacent(request, plugins, i);
          return false;
        }
        if !validateUncut && str != Colon {
          PendingForever(request, plugins, mark, i);
          break;
        }
        SettledStays(request, plugins, i);
        prev := Some(str);
        i := i + 1;
        continue;
      }
      if prev.Some? && !IsLogicalOperator(prev.value) && prev.value != Uncut {
        assert !Adjacent(request, plugins, i);
        return false;
      }
      if str == Uncut {
        if !validateUncut {
          PendingForever(request, plugins, mark, i);
          break;
        }
        SettledStays(request, plugins, i);
        prev := Some(str);
        validateUncut := false;
        mark := i;
        i := i + 1;
        continue;
      }
      if str.uid !in plugins {
        assert !Adjacent(request, plugins, i);
        return false;
      }
      if prev == Some(Colon) && !IsEffect(plugins, str.uid) {
        assert !Adjacent(request, plugins, i);
        return false;
      }
      SettledStays(request, plugins, i);
      if IsEffect(plugins, str.uid) {
        if wasPending {
          assert EffectAt(request, plugins, i);
          assert Settled(request, plugins, mark, i + 1);
        }
        validateUncut := true;
      }
      prev := Some(str);
      i := i + 1;
    }
    if !validateUncut {
      if i == |request| {
        assert !Settled(request, plugins, mark, i);
      }
      return false;
    }
    return true;
  }

  /** Reading one more word keeps the marks that are already settled. */
  lemma SettledStays(request: seq<Token>, plugins: PluginTable, n: nat)
    requires n < |request|
    ensures forall k :: 0 <= k < n && Settled(request, plugins, k, n) ==> Settled(request, plugins, k, n + 1)
  {
    forall k | 0 <= k < n && Settled(request, plugins, k, n)
      ensures Settled(request, plugins, k, n + 1)
    {
      var j :| k < j < n && EffectAt(request, plugins, j) && forall l :: k < l < j ==> !Barrier(request[l]);
    }
  }

  /** A mark that meets a barrier first is never settled, so the scan may stop there. */
  lemma PendingForever(request: seq<Token>, plugins: PluginTable, i: nat, n: nat)
    requires i < n < |request| && Pending(request, plugins, i, n) && Barrier(request[n])
    ensures !Settled(request, plugins, i, |request|)
    ensures !Accepts(request, plugins)
  {
  }
}
