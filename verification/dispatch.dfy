/**
 The print-button handler: for every resolved item with a positive integer
 quantity, render the template once and send the rendered label to the
 printer that many times, stopping the whole batch at the first failed
 send.

 The printer is modelled by the set `fails` of attempt numbers whose send
 fails: the send with (zero-based) attempt number `a` within the batch
 succeeds exactly when `a !in fails`. Go's
 map iteration order, which `ProcessTemplate` depends on, is given per
 item by `orders`.
 */
module Dispatch {
  import opened Strings
  import opened Strconv
  import opened Zpl
  import opened Template
  import opened Resolver

  /** What one press of the print button ends with. */
  datatype Outcome =
    | NoItems
    | NoPrinter
      /**
       A send failed while printing `item`; `jobs` are all sends attempted, the
       failed one last. `successCount` and `totalLabels` are the handler's
       local counters at the moment of failure: the status line shows only the
       item and the error, so neither is reported.
       */
    | Failed(item: string, jobs: seq<string>, successCount: nat, totalLabels: nat)
      /** Every send succeeded. */
    | Done(jobs: seq<string>, successCount: nat, totalLabels: nat)

  /** The keys an item's render uses once the derived keys are added. */
  const RenderKeys: set<string> := {"item_name", "price", "sku_id", "by", "barcode_x"}

  function Replacements(item: PrintItem): map<string, string> {
    map["item_name" := item.name, "price" := item.price, "sku_id" := item.sku]
  }

  lemma RenderKeysOf(item: PrintItem)
    ensures FinalReplacements(Replacements(item)).Keys == RenderKeys
  {
    assert Replacements(item).Keys == {"item_name", "price", "sku_id"};
  }

  /** The label rendered for `item` when the map is walked in `order`. */
  function Render(template: string, item: PrintItem, order: seq<string>): (zpl: string)
    requires IsKeyOrder(order, RenderKeys)
    ensures !Contains(template, "{{") ==> zpl == template
    ensures NoMarkers(template) ==> NoMarkers(zpl)
  {
    RenderKeysOf(item);
    ProcessTemplate(template, Replacements(item), order)
  }

  /** The number of labels an item asks for: its quantity when that parses to a positive `int`, else 0 (skipped). */
  function LabelCount(item: PrintItem): (n: nat)
    ensures n > 0 <==> Atoi(item.qty).Some? && Atoi(item.qty).value > 0
    ensures n > 0 ==> n == Atoi(item.qty).value
  {
    var q := Atoi(item.qty);
    if q.Some? && q.value > 0 then q.value else 0
  }

  predicate OrdersFit(items: seq<PrintItem>, orders: seq<seq<string>>) {
    |orders| == |items| && forall i :: 0 <= i < |orders| ==> IsKeyOrder(orders[i], RenderKeys)
  }

  /** Each item's label count, in item order. */
  function Counts(items: seq<PrintItem>): (counts: seq<nat>)
    ensures |counts| == |items|
    ensures forall i :: 0 <= i < |items| ==> counts[i] == LabelCount(items[i])
  {
    seq(|items|, i requires 0 <= i < |items| => LabelCount(items[i]))
  }

  /** The label each item renders to, in item order. */
  function Labels(items: seq<PrintItem>, template: string, orders: seq<seq<string>>): (labels: seq<string>)
    requires OrdersFit(items, orders)
    ensures |labels| == |items|
    ensures forall i :: 0 <= i < |items| ==> labels[i] == Render(template, items[i], orders[i])
  {
    seq(|items|, i requires 0 <= i < |items| => Render(template, items[i], orders[i]))
  }

  function Copies(s: string, n: nat): (r: seq<string>)
    ensures |r| == n && forall i :: 0 <= i < n ==> r[i] == s
  {
    seq(n, _ => s)
  }

  /** Labels asked for by the first `n` items. */
  function LabelsUpTo(counts: seq<nat>, n: nat): nat
    requires n <= |counts|
  {
    if n == 0 then 0 else LabelsUpTo(counts, n - 1) + counts[n - 1]
  }

  /** Items among the first `n` that are printed (their count is positive). */
  function PrintableUpTo(counts: seq<nat>, n: nat): nat
    requires n <= |counts|
  {
    if n == 0 then 0 else PrintableUpTo(counts, n - 1) + (if counts[n - 1] > 0 then 1 else 0)
  }

  /**
   The sends the first `n` items call for when nothing fails: each item's
   label as many times as its count, in item order.
   */
  function Planned(counts: seq<nat>, labels: seq<string>, n: nat): (p: seq<string>)
    requires |labels| == |counts| && n <= |counts|
    ensures |p| == LabelsUpTo(counts, n)
  {
    if n == 0 then []
    else Planned(counts, labels, n - 1) + Copies(labels[n - 1], counts[n - 1])
  }

  /** The sends planned for fewer items are a prefix of those planned for more. */
  lemma {:induction false} PlannedPrefix(counts: seq<nat>, labels: seq<string>, n: nat, m: nat)
    requires |labels| == |counts| && n <= m <= |counts|
    ensures Planned(counts, labels, n) <= Planned(counts, labels, m)
    decreases m - n
  {
    if n < m {
      PlannedPrefix(counts, labels, n + 1, m);
      var p := Planned(counts, labels, n);
      var c := Copies(labels[n], counts[n]);
      assert (p + c)[..|p|] == p;
    }
  }

  /** Running label counts never decrease. */
  lemma {:induction false} LabelsMonotone(counts: seq<nat>, n: nat, m: nat)
    requires n <= m <= |counts|
    ensures LabelsUpTo(counts, n) <= LabelsUpTo(counts, m)
    decreases m - n
  {
    if n < m {
      LabelsMonotone(counts, n + 1, m);
    }
  }

  /**
   Every send planned for item `k` is that item's label: the sends from
   position `LabelsUpTo(k)` up to `LabelsUpTo(k + 1)` are copies of it.
   */
  lemma PlannedSlot(counts: seq<nat>, labels: seq<string>, k: nat, a: nat)
    requires |labels| == |counts| && k < |counts|
    requires LabelsUpTo(counts, k) <= a < LabelsUpTo(counts, k + 1)
    ensures a < |Planned(counts, labels, |counts|)|
    ensures Planned(counts, labels, |counts|)[a] == labels[k]
  {
    var whole := Planned(counts, labels, |counts|);
    var upto := Planned(counts, labels, k + 1);
    PlannedPrefix(counts, labels, k + 1, |counts|);
    LabelsMonotone(counts, k + 1, |counts|);
    assert upto == Planned(counts, labels, k) + Copies(labels[k], counts[k]);
    assert upto[a] == labels[k];
    assert whole[a] == upto[a];
  }

  /** Sending an item's label fewer times than its count leaves a prefix of the plan. */
  lemma PartialItemIsPrefix(counts: seq<nat>, labels: seq<string>, i: nat, n: nat)
    requires |labels| == |counts| && i < |counts| && n <= counts[i]
    ensures Planned(counts, labels, i) + Copies(labels[i], n) <= Planned(counts, labels, |counts|)
  {
    var p := Planned(counts, labels, i);
    var c := Copies(labels[i], counts[i]);
    CopiesPrefix(labels[i], n, counts[i]);
    AppendKeepsPrefix(p, Copies(labels[i], n), c);
    assert p + c == Planned(counts, labels, i + 1);
    PlannedPrefix(counts, labels, i + 1, |counts|);
    PrefixTransitive(p + Copies(labels[i], n), p + c, Planned(counts, labels, |counts|));
  }

  lemma NoCopies(s: string)
    ensures Copies(s, 0) == []
  {
  }

  lemma CopiesPrefix(s: string, n: nat, m: nat)
    requires n <= m
    ensures Copies(s, n) <= Copies(s, m)
  {
    assert Copies(s, n) == Copies(s, m)[..n];
  }

  lemma AppendKeepsPrefix<T>(p: seq<T>, c: seq<T>, d: seq<T>)
    requires c <= d
    ensures p + c <= p + d
  {
    assert (p + d)[..|p| + |c|] == p + d[..|c|];
  }

  lemma PrefixTransitive<T>(a: seq<T>, b: seq<T>, c: seq<T>)
    requires a <= b && b <= c
    ensures a <= c
  {
    assert c[..|b|][..|a|] == c[..|a|];
  }

  /**
   The inner loop of the handler: send `zpl` up to `q` times, attempt
   numbers counting on from `start`, and stop at the first failure.
   `sends` are the attempts made, the failed one included.
   */
  method SendCopies(zpl: string, q: nat, fails: set<nat>, start: nat) returns (sends: seq<string>, failed: bool)
    ensures |sends| <= q && sends == Copies(zpl, |sends|)
    ensures !failed ==> |sends| == q && forall a :: start <= a < start + q ==> a !in fails
    ensures failed ==> |sends| > 0 && start + |sends| - 1 in fails
    ensures failed ==> forall a :: start <= a < start + |sends| - 1 ==> a !in fails
  {
    sends := [];
    for j := 0 to q
      invariant sends == Copies(zpl, j)
      invariant forall a :: start <= a < start + j ==> a !in fails
    {
      var sent := (start + j) !in fails;
      sends := sends + [zpl];
      if !sent {
        return sends, true;
      }
    }
    return sends, false;
  }

  /**
   A failed batch whose last attempt falls within the share of item `k`:
   the outcome names that item and counts the items and labels before it.
   */
  predicate FailedWithin(items: seq<PrintItem>, counts: seq<nat>, outcome: Outcome, k: int)
    requires |counts| == |items| && outcome.Failed?
  {
    && 0 <= k < |items|
    && LabelsUpTo(counts, k) < |outcome.jobs| <= LabelsUpTo(counts, k + 1)
    && outcome.item == items[k].name
    && outcome.successCount == PrintableUpTo(counts, k)
    && outcome.totalLabels == LabelsUpTo(counts, k)
  }

  /**
   What a batch that stopped at a failed send looks like: its attempts are
   a prefix of the plan; every attempt but the last succeeded and the last
   failed; and the failed attempt falls within the share of some item,
   which the outcome names.
   */
  predicate StopsAtFailure(items: seq<PrintItem>, counts: seq<nat>, labels: seq<string>, fails: set<nat>, outcome: Outcome)
    requires |counts| == |items| && |labels| == |items|
  {
    && outcome.Failed?
    && 0 < |outcome.jobs| <= LabelsUpTo(counts, |counts|)
    && outcome.jobs <= Planned(counts, labels, |counts|)
    && (forall a :: 0 <= a < |outcome.jobs| ==> (a !in fails <==> a < |outcome.jobs| - 1))
    && exists k :: 0 <= k < |items| && FailedWithin(items, counts, outcome, k)
  }

  lemma LastAttemptFailed(fails: set<nat>, done: nat, made: nat)
    requires forall a :: 0 <= a < done ==> a !in fails
    requires made > 0 && done + made - 1 in fails
    requires forall a :: done <= a < done + made - 1 ==> a !in fails
    ensures forall a :: 0 <= a < done + made ==> (a !in fails <==> a < done + made - 1)
  {
  }

  /** Part of an item's share, sent after the items before it, stays within the plan and within that item's share. */
  lemma PartialItemBounds(counts: seq<nat>, labels: seq<string>, i: nat, n: nat)
    requires |labels| == |counts| && i < |counts| && 0 < n <= counts[i]
    ensures Planned(counts, labels, i) + Copies(labels[i], n) <= Planned(counts, labels, |counts|)
    ensures LabelsUpTo(counts, i) < LabelsUpTo(counts, i) + n <= LabelsUpTo(counts, i + 1)
    ensures LabelsUpTo(counts, i + 1) <= LabelsUpTo(counts, |counts|)
  {
    PartialItemIsPrefix(counts, labels, i, n);
    LabelsMonotone(counts, i + 1, |counts|);
  }

  /**
   A failed send while printing item `i` ends a batch that stops at that
   failure, naming item `i` and counting the items and labels before it.
   */
  lemma FailedBatch(items: seq<PrintItem>, counts: seq<nat>, labels: seq<string>, fails: set<nat>, i: nat,
                    before: seq<string>, sends: seq<string>)
    requires |counts| == |items| && |labels| == |items| && i < |items|
    requires before == Planned(counts, labels, i)
    requires forall a :: 0 <= a < |before| ==> a !in fails
    requires 0 < |sends| <= counts[i] && sends == Copies(labels[i], |sends|)
    requires |before| + |sends| - 1 in fails
    requires forall a :: |before| <= a < |before| + |sends| - 1 ==> a !in fails
    ensures StopsAtFailure(items, counts, labels, fails,
                           Failed(items[i].name, before + sends, PrintableUpTo(counts, i), LabelsUpTo(counts, i)))
  {
    var outcome := Failed(items[i].name, before + sends, PrintableUpTo(counts, i), LabelsUpTo(counts, i));
    LastAttemptFailed(fails, |before|, |sends|);
    PartialItemBounds(counts, labels, i, |sends|);
    assert FailedWithin(items, counts, outcome, i);
  }

  /** The first `n` values of `f`, in order. */
  function Tabulate<T>(f: nat -> T, n: nat): (s: seq<T>)
    ensures |s| == n && forall i :: 0 <= i < n ==> s[i] == f(i)
  {
    seq(n, i requires 0 <= i < n => f(i))
  }

  /**
   The handler's loop over the items, with the label count of item `i`
   given by `count(i)` and its label by `render(i)`: an item whose count
   is 0 is skipped without being rendered; the others are rendered once
   and sent once per label, and the first failed send ends the batch.
   `counts` and `labels` are those values for all items.
   */
  method SendBatch(items: seq<PrintItem>, count: nat -> nat, render: nat -> string, fails: set<nat>,
                   ghost counts: seq<nat>, ghost labels: seq<string>)
    returns (outcome: Outcome)
    requires counts == Tabulate(count, |items|) && labels == Tabulate(render, |items|)
    ensures outcome.Done? || outcome.Failed?
    ensures outcome.Done? ==>
              && outcome.jobs == Planned(counts, labels, |items|)
              && outcome.successCount == PrintableUpTo(counts, |items|)
              && outcome.totalLabels == LabelsUpTo(counts, |items|)
    ensures outcome.Done? <==> forall a :: 0 <= a < LabelsUpTo(counts, |items|) ==> a !in fails
    ensures outcome.Failed? ==> StopsAtFailure(items, counts, labels, fails, outcome)
  {
    var successCount: nat := 0;
    var totalLabels: nat := 0;
    var jobs: seq<string> := [];
    for i := 0 to |items|
      invariant jobs == Planned(counts, labels, i)
      invariant successCount == PrintableUpTo(counts, i)
      invariant totalLabels == LabelsUpTo(counts, i)
      invariant forall a :: 0 <= a < |jobs| ==> a !in fails
    {
      var q := count(i);
      if q > 0 {
        var zpl := render(i);
        var sends, failed := SendCopies(zpl, q, fails, |jobs|);
        if failed {
          FailedBatch(items, counts, labels, fails, i, jobs, sends);
          return Failed(items[i].name, jobs + sends, successCount, totalLabels);
        }
        jobs := jobs + sends;
        successCount := successCount + 1;
        totalLabels := totalLabels + q;
      } else {
        NoCopies(labels[i]);
      }
    }
    return Done(jobs, successCount, totalLabels);
  }

  /**
   The print-button handler. With no items, or no printer chosen, nothing
   is sent. Otherwise the items are visited in order; an item whose
   quantity is not a positive integer is skipped; the others are rendered
   once and sent once per label. The first failed send ends the batch and
   names the item being printed; if none fails, the outcome carries the
   number of items printed and of labels sent.
   */
  method PrintLabels(items: seq<PrintItem>, printer: string, template: string,
                     orders: seq<seq<string>>, fails: set<nat>)
    returns (outcome: Outcome)
    requires OrdersFit(items, orders)
    ensures outcome.NoItems? <==> |items| == 0
    ensures outcome.NoPrinter? <==> |items| > 0 && printer == ""
    ensures outcome.Done? ==>
              && outcome.jobs == Planned(Counts(items), Labels(items, template, orders), |items|)
              && outcome.successCount == PrintableUpTo(Counts(items), |items|)
              && outcome.totalLabels == LabelsUpTo(Counts(items), |items|)
    ensures outcome.Done? <==>
              |items| > 0 && printer != "" && forall a :: 0 <= a < LabelsUpTo(Counts(items), |items|) ==> a !in fails
    ensures outcome.Failed? ==> StopsAtFailure(items, Counts(items), Labels(items, template, orders), fails, outcome)
  {
    if |items| == 0 {
      return NoItems;
    }
    if printer == "" {
      return NoPrinter;
    }
    // The batch loop sees each item's label count and rendering only through
    // these two functions, which keeps quantity parsing and template rendering
    // out of its proof; the `else` branches are never taken for `i < |items|`.
    var count := (i: nat) => if i < |items| then LabelCount(items[i]) else 0;
    var render := (i: nat) =>
      if i < |items| && IsKeyOrder(orders[i], RenderKeys) then Render(template, items[i], orders[i]) else template;
    assert Tabulate(count, |items|) == Counts(items);
    assert Tabulate(render, |items|) == Labels(items, template, orders);
    outcome := SendBatch(items, count, render, fails, Counts(items), Labels(items, template, orders));
  }

  /**
   Quantities are parsed strictly: "3" asks for three labels, while "0",
   "-2", "abc", " 3" and "" ask for none and the item is skipped.
   */
  lemma QuantityExamples(name: string)
    ensures LabelCount(PrintItem(name, "", "", "3")) == 3
    ensures LabelCount(PrintItem(name, "", "", "0")) == 0
    ensures LabelCount(PrintItem(name, "", "", "-2")) == 0
    ensures LabelCount(PrintItem(name, "", "", "abc")) == 0
    ensures LabelCount(PrintItem(name, "", "", " 3")) == 0
    ensures LabelCount(PrintItem(name, "", "", "")) == 0
  {
    AtoiAcceptsExamples();
    AtoiRejectsExamples();
  }

  /** Counts 2, 0 and 1: the first label twice, nothing for the skipped item, the third once. */
  lemma PlanExample(a: string, b: string, c: string)
    ensures Planned([2, 0, 1], [a, b, c], 3) == [a, a, c]
    ensures PrintableUpTo([2, 0, 1], 3) == 2 && LabelsUpTo([2, 0, 1], 3) == 3
  {
    var counts: seq<nat> := [2, 0, 1];
    var labels := [a, b, c];
    assert Planned(counts, labels, 1) == [a, a];
    assert Planned(counts, labels, 2) == [a, a];
  }
}
