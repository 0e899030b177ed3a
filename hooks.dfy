/**
 * `_hooks_to_tuple`, `_merge_hooks` and `append_hooks_to_conditioning`:
 * whatever a node receives as "hooks" (nothing, a list, a tuple, a
 * `HookGroup` or one hook) is flattened to a tuple of hooks, and a
 * conditioning list gets those hooks added, after the ones it already
 * carries, to the options of each of its `(cond, options)` pairs.
 *
 * Hooks themselves are opaque values of a type parameter `H`; `None`
 * elements of a list, tuple or group are `Option.None`. The host's
 * `HookGroup` is its list of hooks, and `HookGroup.add` appends.
 */
module Hooks {
  import opened Wrappers

  /** The shapes a "hooks" value can take. `NoHooks` is `None` (or an
      options dictionary without a "hooks" key). */
  datatype Hooks<H> =
    | NoHooks
    | HookList(items: seq<Option<H>>)
    | HookTuple(items: seq<Option<H>>)
    | HookGroup(hooks: seq<Option<H>>)
    | SingleHook(hook: H)

  /** The elements of `xs` that are not `None`, in order. */
  function Present<H>(xs: seq<Option<H>>): seq<H> {
    FilterMap(xs, (o: Option<H>) => o)
  }

  /** The tuple of hooks as a list value without `None` elements. */
  function Lift<H>(hooks: seq<H>): seq<Option<H>> {
    seq(|hooks|, k requires 0 <= k < |hooks| => Some(hooks[k]))
  }

  /** `_hooks_to_tuple(h)`. */
  function HooksToTuple<H>(h: Hooks<H>): (r: seq<H>)
    ensures forall k :: 0 <= k < |r| ==> Carries(h, r[k])
  {
    match h
    case NoHooks => []
    case HookList(xs) => PresentSound(xs); Present(xs)
    case HookTuple(xs) => PresentSound(xs); Present(xs)
    case HookGroup(xs) => PresentSound(xs); Present(xs)
    case SingleHook(x) => [x]
  }

  /** `_merge_hooks(a, b)`. */
  function MergeHooks<H>(a: Hooks<H>, b: Hooks<H>): (r: seq<H>)
    ensures |r| == |HooksToTuple(a)| + |HooksToTuple(b)|
    ensures r[..|HooksToTuple(a)|] == HooksToTuple(a) && r[|HooksToTuple(a)|..] == HooksToTuple(b)
  {
    HooksToTuple(a) + HooksToTuple(b)
  }

  /** An independent reading of which hooks a value holds. */
  predicate Carries<H(==)>(h: Hooks<H>, x: H) {
    match h
    case NoHooks => false
    case HookList(xs) => Some(x) in xs
    case HookTuple(xs) => Some(x) in xs
    case HookGroup(xs) => Some(x) in xs
    case SingleHook(y) => y == x
  }

  lemma {:induction false} PresentMembers<H>(xs: seq<Option<H>>, x: H)
    ensures x in Present(xs) <==> Some(x) in xs
  {
    if xs != [] {
      PresentMembers(xs[1..], x);
      assert xs == [xs[0]] + xs[1..];
    }
  }

  /** Every hook the None-filter keeps was in the sequence. */
  lemma PresentSound<H>(xs: seq<Option<H>>)
    ensures forall k :: 0 <= k < |Present(xs)| ==> Some(Present(xs)[k]) in xs
  {
    forall k | 0 <= k < |Present(xs)|
      ensures Some(Present(xs)[k]) in xs
    {
      PresentMembers(xs, Present(xs)[k]);
    }
  }

  /** Dropping `None` works element by element and keeps the order: a
      `None` disappears, a hook stays, and a concatenation is filtered
      part by part. */
  lemma PresentAppend<H>(a: seq<Option<H>>, b: seq<Option<H>>)
    ensures Present(a + b) == Present(a) + Present(b)
  {
    FilterMapAppend(a, b, (o: Option<H>) => o);
  }

  lemma PresentSingle<H>(o: Option<H>)
    ensures Present([o]) == (if o.Some? then [o.value] else [])
  {
    FilterMapSingle(o, (o: Option<H>) => o);
  }

  /** A list without `None` elements keeps all of them. */
  lemma PresentLift<H>(hooks: seq<H>)
    ensures Present(Lift(hooks)) == hooks
  {
    FilterMapTotal(Lift(hooks), (o: Option<H>) => o);
  }

  /** `_hooks_to_tuple` keeps exactly the hooks the value holds. */
  lemma HooksToTupleMembers<H>(h: Hooks<H>, x: H)
    ensures x in HooksToTuple(h) <==> Carries(h, x)
  {
    match h
    case NoHooks =>
    case HookList(xs) => PresentMembers(xs, x);
    case HookTuple(xs) => PresentMembers(xs, x);
    case HookGroup(xs) => PresentMembers(xs, x);
    case SingleHook(_) =>
  }

  /** Flattening a flattened value again changes nothing, whether it is
      passed on as a tuple, a list or a group. */
  lemma HooksToTupleIdempotent<H>(h: Hooks<H>)
    ensures HooksToTuple(HookTuple(Lift(HooksToTuple(h)))) == HooksToTuple(h)
    ensures HooksToTuple(HookList(Lift(HooksToTuple(h)))) == HooksToTuple(h)
    ensures HooksToTuple(HookGroup(Lift(HooksToTuple(h)))) == HooksToTuple(h)
  {
    PresentLift(HooksToTuple(h));
  }

  /** Merging with nothing is flattening. */
  lemma MergeWithNothing<H>(h: Hooks<H>)
    ensures MergeHooks(NoHooks, h) == HooksToTuple(h)
    ensures MergeHooks(h, NoHooks) == HooksToTuple(h)
  {
    assert HooksToTuple(h) + [] == HooksToTuple(h);
  }

  /** Stacking three hook sources gives the same tuple whichever pair is
      merged first, with the merged pair passed on as a tuple. */
  lemma MergeAssociative<H>(a: Hooks<H>, b: Hooks<H>, c: Hooks<H>)
    ensures MergeHooks(HookTuple(Lift(MergeHooks(a, b))), c)
         == MergeHooks(a, HookTuple(Lift(MergeHooks(b, c))))
  {
    PresentLift(MergeHooks(a, b));
    PresentLift(MergeHooks(b, c));
  }

  /** A merged tuple holds a hook exactly when one of the two sources does. */
  lemma MergeMembers<H>(a: Hooks<H>, b: Hooks<H>, x: H)
    ensures x in MergeHooks(a, b) <==> Carries(a, x) || Carries(b, x)
  {
    HooksToTupleMembers(a, x);
    HooksToTupleMembers(b, x);
  }

  // ---------------------------------------------------------------------
  // append_hooks_to_conditioning
  // ---------------------------------------------------------------------

  /** How a conditioning entry holds its two parts. `OtherPair` is any
      other two-element iterable. */
  datatype Container = TuplePair | ListPair | OtherPair

  /** An entry's options: a dictionary, whose "hooks" entry is kept apart
      from its other entries (`rest` never holds a "hooks" key; see
      `WellFormedOptions`), or any other value. */
  datatype Options<H, V> =
    | OptionsDict(hooks: Hooks<H>, rest: map<string, V>)
    | OptionsOther(value: V)

  /** One Python dictionary has one value here: its "hooks" entry is never
      also among the other entries. */
  predicate WellFormedOptions<H, V>(options: Options<H, V>) {
    options.OptionsDict? ==> "hooks" !in options.rest
  }

  predicate WellFormedItem<C, H, V>(item: CondItem<C, H, V>) {
    item.CondPair? ==> WellFormedOptions(item.options)
  }

  /** An entry of a conditioning list: a `(cond, options)` pair, or a value
      that does not unpack into two parts. */
  datatype CondItem<C, H, V> =
    | CondPair(container: Container, cond: C, options: Options<H, V>)
    | CondOther(value: V)

  /** What the loop over an existing "hooks" value adds to the new group:
      the elements of a group, list or tuple as they are (`None` included),
      or the value itself; nothing for a falsy value. */
  function ExistingElements<H>(existing: Hooks<H>): (r: seq<Option<H>>)
    ensures Present(r) == HooksToTuple(existing)
  {
    match existing
    case NoHooks => []
    case HookList(xs) => xs
    case HookTuple(xs) => xs
    case HookGroup(xs) => xs
    case SingleHook(x) => PresentSingle(Some(x)); [Some(x)]
  }

  /** The `HookGroup` an entry gets: its existing hooks, then the new ones. */
  function NewGroup<H>(existing: Hooks<H>, hookTuple: seq<H>): (g: seq<Option<H>>)
    ensures Present(g) == HooksToTuple(existing) + hookTuple
  {
    PresentAppend(ExistingElements(existing), Lift(hookTuple));
    PresentLift(hookTuple);
    ExistingElements(existing) + Lift(hookTuple)
  }

  /** One entry after the rewrite: pairs with a dictionary get a copy of it
      whose "hooks" is the new group, as a tuple if the entry was a tuple
      and as a list otherwise; every other entry is kept as it is. */
  function RewriteItem<C, H, V>(item: CondItem<C, H, V>, hookTuple: seq<H>): (r: CondItem<C, H, V>)
    ensures item.CondOther? || item.options.OptionsOther? ==> r == item
    ensures item.CondPair? && item.options.OptionsDict? ==>
              r.CondPair? && r.cond == item.cond && r.options.OptionsDict?
              && r.options.rest == item.options.rest && r.options.hooks.HookGroup?
              && HooksToTuple(r.options.hooks) == HooksToTuple(item.options.hooks) + hookTuple
  {
    match item
    case CondOther(_) => item
    case CondPair(container, cond, options) =>
      match options
      case OptionsOther(_) => item
      case OptionsDict(existing, rest) =>
        CondPair(if container == TuplePair then TuplePair else ListPair, cond,
                 OptionsDict(HookGroup(NewGroup(existing, hookTuple)), rest))
  }

  /** `append_hooks_to_conditioning(conditioning, hooks)`. */
  function AppendHooks<C, H, V>(conditioning: seq<CondItem<C, H, V>>, hooks: Hooks<H>): (r: seq<CondItem<C, H, V>>)
    ensures |r| == |conditioning|
  {
    var hookTuple := HooksToTuple(hooks);
    if hookTuple == [] then conditioning
    else seq(|conditioning|, k requires 0 <= k < |conditioning| => RewriteItem(conditioning[k], hookTuple))
  }

  /** The two loops that fill a fresh `HookGroup`. */
  method BuildHookGroup<H>(existing: Hooks<H>, hookTuple: seq<H>) returns (group: seq<Option<H>>)
    ensures group == NewGroup(existing, hookTuple)
    ensures Present(group) == HooksToTuple(existing) + hookTuple
  {
    group := [];
    var elements := ExistingElements(existing);
    for k := 0 to |elements|
      invariant group == elements[..k]
    {
      group := group + [elements[k]];
    }
    for k := 0 to |hookTuple|
      invariant group == elements + Lift(hookTuple[..k])
    {
      group := group + [Some(hookTuple[k])];
    }
    assert hookTuple[..|hookTuple|] == hookTuple;
  }

  /** The function as the source runs it: an early return when there is
      nothing to add, then one pass that builds the output list. */
  method AppendHooksToConditioning<C, H, V>(conditioning: seq<CondItem<C, H, V>>, hooks: Hooks<H>)
    returns (out: seq<CondItem<C, H, V>>)
    ensures out == AppendHooks(conditioning, hooks)
  {
    var hookTuple := HooksToTuple(hooks);
    if hookTuple == [] {
      return conditioning;
    }
    out := [];
    for k := 0 to |conditioning|
      invariant |out| == k
      invariant forall j :: 0 <= j < k ==> out[j] == RewriteItem(conditioning[j], hookTuple)
    {
      var item := conditioning[k];
      if item.CondOther? || item.options.OptionsOther? {
        out := out + [item];
        continue;
      }
      var group := BuildHookGroup(item.options.hooks, hookTuple);
      var newOptions := OptionsDict(HookGroup(group), item.options.rest);
      if item.container == TuplePair {
        out := out + [CondPair(TuplePair, item.cond, newOptions)];
      } else {
        out := out + [CondPair(ListPair, item.cond, newOptions)];
      }
    }
  }

  /** Nothing to add leaves the conditioning as it is. */
  lemma NothingToAppend<C, H, V>(conditioning: seq<CondItem<C, H, V>>, hooks: Hooks<H>)
    requires forall x :: !Carries(hooks, x)
    ensures AppendHooks(conditioning, hooks) == conditioning
  {
    if HooksToTuple(hooks) != [] {
      HooksToTupleMembers(hooks, HooksToTuple(hooks)[0]);
    }
  }

  /** Attaching hooks keeps every entry's options a well-formed dictionary. */
  lemma AppendKeepsWellFormed<C, H, V>(conditioning: seq<CondItem<C, H, V>>, hooks: Hooks<H>)
    requires forall k :: 0 <= k < |conditioning| ==> WellFormedItem(conditioning[k])
    ensures var r := AppendHooks(conditioning, hooks);
            forall k :: 0 <= k < |r| ==> WellFormedItem(r[k])
  {
  }

  /** Entries that are not pairs, and pairs whose options are not a
      dictionary, are passed through unchanged. */
  lemma OtherEntriesUnchanged<C, H, V>(conditioning: seq<CondItem<C, H, V>>, hooks: Hooks<H>, k: nat)
    requires k < |conditioning|
    requires conditioning[k].CondOther? || conditioning[k].options.OptionsOther?
    ensures AppendHooks(conditioning, hooks)[k] == conditioning[k]
  {
  }

  /** A pair with a dictionary keeps its condition and its other options,
      becomes a list unless it was a tuple, and its hooks flatten to the
      merge of the hooks it had and the hooks added. */
  lemma PairGetsMergedHooks<C, H, V>(conditioning: seq<CondItem<C, H, V>>, hooks: Hooks<H>, k: nat)
    requires k < |conditioning| && HooksToTuple(hooks) != []
    requires conditioning[k].CondPair? && conditioning[k].options.OptionsDict?
    ensures var before, after := conditioning[k], AppendHooks(conditioning, hooks)[k];
            after.CondPair? && after.cond == before.cond
            && after.container == (if before.container == TuplePair then TuplePair else ListPair)
            && after.options.OptionsDict? && after.options.rest == before.options.rest
            && after.options.hooks.HookGroup?
            && HooksToTuple(after.options.hooks) == MergeHooks(before.options.hooks, hooks)
  {
  }

  /** Applying two hook sources one after the other stacks them: each pair
      with a dictionary ends up with its old hooks, then the first source's,
      then the second's. */
  lemma AppendStacks<C, H, V>(conditioning: seq<CondItem<C, H, V>>, first: Hooks<H>, second: Hooks<H>, k: nat)
    requires k < |conditioning| && HooksToTuple(first) != [] && HooksToTuple(second) != []
    requires conditioning[k].CondPair? && conditioning[k].options.OptionsDict?
    ensures var after := AppendHooks(AppendHooks(conditioning, first), second)[k];
            after.CondPair? && after.options.OptionsDict?
            && HooksToTuple(after.options.hooks)
               == HooksToTuple(conditioning[k].options.hooks) + HooksToTuple(first) + HooksToTuple(second)
  {
    var once := AppendHooks(conditioning, first);
    PairGetsMergedHooks(conditioning, first, k);
    PairGetsMergedHooks(once, second, k);
  }
}
