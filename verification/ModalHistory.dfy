/** Back dismisses the topmost dialog: one history entry per open dialog
    (QH_MODAL_STACK and the history effect of QhModal in qh-modal.jsx). */
module ModalHistory {
  import opened Options

  /** A history entry: its address, and the dialog whose sentinel it is. */
  datatype Entry = Entry(url: string, modal: Option<nat>)

  /** The tab's history with its cursor, the open dialogs (innermost last), the next
      dialog id, and the `history.back()` calls the browser has not carried out yet. */
  datatype World = World(entries: seq<Entry>, cursor: nat, stack: seq<nat>, nextId: nat, pending: nat)
  {
    predicate Valid() {
      cursor < |entries|
    }

    function Top(): nat
      requires stack != []
    {
      stack[|stack| - 1]
    }

    predicate Mine(id: nat)
      requires Valid()
    {
      entries[cursor].modal == Some(id)
    }
  }

  /** `pushState` at the same address: forward entries are gone. */
  function Push(w: World, id: nat): World
    requires w.Valid()
  {
    w.(entries := w.entries[..w.cursor + 1] + [Entry(w.entries[w.cursor].url, Some(id))], cursor := w.cursor + 1)
  }

  function Mount(w: World): World
    requires w.Valid()
  {
    Push(w.(stack := w.stack + [w.nextId], nextId := w.nextId + 1), w.nextId)
  }

  function Without(stack: seq<nat>, i: nat): seq<nat>
    requires i < |stack|
  {
    stack[..i] + stack[i + 1..]
  }

  /** A dialog unmounts without a Back: it spends its sentinel when it stands on it. */
  function Unmount(w: World, i: nat): World
    requires w.Valid() && i < |w.stack|
  {
    w.(stack := Without(w.stack, i), pending := if w.Mine(w.stack[i]) then w.pending + 1 else w.pending)
  }

  /** `popstate`: only the topmost dialog answers, and not on its own sentinel. It
      closes, or refuses and takes its sentinel back. */
  function PopState(w: World, accept: bool): World
    requires w.Valid()
  {
    if w.stack == [] || w.Mine(w.Top()) then w
    else if accept then w.(stack := w.stack[..|w.stack| - 1])
    else Push(w, w.Top())
  }

  function Traverse(w: World, forward: bool, accept: bool): World
    requires w.Valid()
  {
    if forward then (if w.cursor + 1 < |w.entries| then PopState(w.(cursor := w.cursor + 1), accept) else w)
    else if w.cursor > 0 then PopState(w.(cursor := w.cursor - 1), accept) else w
  }

  datatype Event = Open | Close(i: nat) | Back(accept: bool) | Forward(accept: bool) | Settle(accept: bool)

  predicate Possible(w: World, e: Event) {
    && (e.Close? ==> e.i < |w.stack|)
    && (e.Settle? ==> w.pending > 0)
  }

  function Step(w: World, e: Event): (r: World)
    requires w.Valid() && Possible(w, e)
    ensures r.Valid()
  {
    match e
    case Open => Mount(w)
    case Close(i) => Unmount(w, i)
    case Back(accept) => Traverse(w, false, accept)
    case Forward(accept) => Traverse(w, true, accept)
    case Settle(accept) => Traverse(w.(pending := w.pending - 1), false, accept)
  }

  /** The page's own variables and the browser's history, changed in place. */
  class Page {
    var entries: seq<Entry>
    var cursor: nat
    var stack: seq<nat>
    var nextId: nat
    var pending: nat

    function State(): World
      reads this
    {
      World(entries, cursor, stack, nextId, pending)
    }

    constructor (url: string)
      ensures State() == World([Entry(url, None)], 0, [], 0, 0)
    {
      entries, cursor, stack, nextId, pending := [Entry(url, None)], 0, [], 0, 0;
    }

    method PushSentinel(id: nat)
      requires State().Valid()
      modifies this`entries, this`cursor
      ensures State() == Push(old(State()), id)
    {
      entries := entries[..cursor + 1] + [Entry(entries[cursor].url, Some(id))];
      cursor := cursor + 1;
    }

    method OpenDialog() returns (id: nat)
      requires State().Valid()
      modifies this
      ensures id == old(nextId) && State() == Step(old(State()), Open)
    {
      id := nextId;
      nextId := nextId + 1;
      stack := stack + [id];
      PushSentinel(id);
    }

    /** The effect's cleanup; `spent` says that a Back already took the sentinel. */
    method Cleanup(i: nat, spent: bool)
      requires State().Valid() && i < |stack|
      modifies this`stack, this`pending
      ensures State() == if spent then old(State()).(stack := Without(old(stack), i)) else Unmount(old(State()), i)
    {
      var id := stack[i];
      stack := stack[..i] + stack[i + 1..];
      if !spent && entries[cursor].modal == Some(id) { pending := pending + 1; }
    }

    /** The `popstate` listeners, the close they ask for, and the timer after it. */
    method OnPopState(accept: bool)
      requires State().Valid()
      modifies this
      ensures State() == PopState(old(State()), accept)
    {
      if stack == [] { return; }
      var id := stack[|stack| - 1];
      if entries[cursor].modal == Some(id) { return; }
      if accept {
        Cleanup(|stack| - 1, true);
        assert stack == old(stack)[..|old(stack)| - 1];
      } else {
        PushSentinel(id);
      }
    }

    method Dismiss(i: nat)
      requires State().Valid() && i < |stack|
      modifies this
      ensures State() == Step(old(State()), Close(i))
    {
      Cleanup(i, false);
    }

    method GoBack(accept: bool)
      requires State().Valid()
      modifies this
      ensures State() == Step(old(State()), Back(accept))
    {
      if cursor > 0 {
        cursor := cursor - 1;
        OnPopState(accept);
      }
    }

    method GoForward(accept: bool)
      requires State().Valid()
      modifies this
      ensures State() == Step(old(State()), Forward(accept))
    {
      if cursor + 1 < |entries| {
        cursor := cursor + 1;
        OnPopState(accept);
      }
    }

    method SettleBack(accept: bool)
      requires State().Valid() && pending > 0
      modifies this
      ensures State() == Step(old(State()), Settle(accept))
    {
      pending := pending - 1;
      GoBack(accept);
    }
  }

  // ---- The invariant ----

  /** Not the sentinel of a dialog that is still to open: an id not given out yet can stand on
      an entry that an earlier load of the page left. */
  predicate Past(w: World, at: nat)
    requires at < |w.entries|
  {
    w.entries[at].modal.Some? ==> w.entries[at].modal.value < w.nextId
  }

  /** Above the entry the dialogs opened on stand their sentinels, in stack order, all
      at that entry's address; a spent sentinel waits on top while a back is pending. */
  ghost predicate Inv(w: World, base: nat) {
    && w.Valid() && w.pending <= 1
    && w.cursor == base + |w.stack| + w.pending
    && (forall i :: 0 <= i < |w.stack| ==> w.entries[base + 1 + i] == Entry(w.entries[base].url, Some(w.stack[i])))
    && w.entries[w.cursor].url == w.entries[base].url
    && (forall i :: 0 <= i < |w.stack| ==> w.stack[i] < w.nextId)
    && (forall i, j :: 0 <= i < j < |w.stack| ==> w.stack[i] != w.stack[j])
    && Past(w, base)
    && (w.stack != [] ==> forall j :: base < j < |w.entries| && w.entries[j].modal.Some? ==> w.entries[j].modal.value < w.nextId)
    && (forall i, j :: 0 <= i < |w.stack| && base <= j < |w.entries| && w.entries[j].modal == Some(w.stack[i]) ==> j == base + 1 + i)
  }

  /** History settles between the person's actions, dialogs close innermost first, and
      no Forward is pressed over an open dialog. */
  predicate Disciplined(w: World, e: Event) {
    if w.pending > 0 then e.Settle?
    else match e
         case Open => true
         case Close(i) => i + 1 == |w.stack|
         case Back(_) => w.stack != []
         case Forward(_) => false
         case Settle(_) => false
  }

  /** One Back closes the top dialog and no other; a refused one leaves everything as
      it was, forward entries aside; Escape closes the top and gives its entry back. */
  lemma TopAnswers(w: World, base: nat)
    requires Inv(w, base) && w.pending == 0 && w.stack != []
    ensures Step(w, Back(true)) == w.(stack := w.stack[..|w.stack| - 1], cursor := w.cursor - 1)
    ensures Step(w, Back(false)) == w.(entries := w.entries[..w.cursor + 1])
    ensures var closing := Step(w, Close(|w.stack| - 1));
      closing.pending == 1 && forall accept ::
        Step(closing, Settle(accept)) == w.(stack := w.stack[..|w.stack| - 1], cursor := w.cursor - 1)
  {
    var n := |w.stack|;
    assert Without(w.stack, n - 1) == w.stack[..n - 1];
    assert w.entries[base + 1 + (n - 1)].modal == Some(w.Top());
    assert n >= 2 ==> w.entries[base + 1 + (n - 2)].modal == Some(w.stack[n - 2]);
    var refused := Step(w, Back(false));
    assert refused.entries == w.entries[..w.cursor + 1];
  }

  lemma OpenKeepsInv(w: World, base: nat)
    requires Inv(w, base) && w.pending == 0
    ensures Inv(Mount(w), base) && Mount(w).entries[..base + 1] == w.entries[..base + 1]
  {
    var r := Mount(w);
    forall i | 0 <= i < |r.stack| ensures r.entries[base + 1 + i] == Entry(r.entries[base].url, Some(r.stack[i])) {
      if i < |w.stack| { assert w.entries[base + 1 + i] == r.entries[base + 1 + i]; }
    }
  }

  /** Every disciplined step keeps the invariant and the entries below the dialogs. */
  lemma StepKeepsInv(w: World, base: nat, e: Event)
    requires Inv(w, base) && Disciplined(w, e) && Possible(w, e)
    ensures Inv(Step(w, e), base)
    ensures Step(w, e).entries[..base + 1] == w.entries[..base + 1]
  {
    match e
    case Open => OpenKeepsInv(w, base);
    case Close(i) =>
    case Back(accept) =>
      BackKeepsInv(w, base, accept);
      TopAnswers(w, base);
      if !accept { assert w.entries[..w.cursor + 1][..base + 1] == w.entries[..base + 1]; }
    case Settle(accept) => SettleKeepsInv(w, base, accept);
    case Forward(_) =>
  }

  lemma TopUrl(w: World, base: nat)
    requires Inv(w, base) && w.stack != []
    ensures w.entries[base + |w.stack| - 1].url == w.entries[base].url
    ensures w.entries[base + |w.stack|].modal == Some(w.Top())
  {
    var n := |w.stack|;
    assert w.entries[base + 1 + (n - 1)].modal == Some(w.stack[n - 1]);
    if n >= 2 { assert w.entries[base + 1 + (n - 2)] == Entry(w.entries[base].url, Some(w.stack[n - 2])); }
  }

  lemma BackKeepsInv(w: World, base: nat, accept: bool)
    requires Inv(w, base) && w.pending == 0 && w.stack != []
    ensures Inv(Step(w, Back(accept)), base)
  {
    TopAnswers(w, base);
    TopUrl(w, base);
  }

  lemma SettleKeepsInv(w: World, base: nat, accept: bool)
    requires Inv(w, base) && w.pending > 0
    ensures Step(w, Settle(accept)) == w.(pending := 0, cursor := w.cursor - 1)
    ensures Inv(Step(w, Settle(accept)), base)
  {
    if w.stack != [] {
      TopUrl(w, base);
      assert w.entries[base + 1 + (|w.stack| - 1)].url == w.entries[base].url;
    }
  }

  function Run(w: World, es: seq<Event>): (r: Option<World>)
    decreases |es|
  {
    if es == [] then Some(w)
    else if w.Valid() && Possible(w, es[0]) && Disciplined(w, es[0]) then Run(Step(w, es[0]), es[1..])
    else None
  }

  lemma {:induction false} RunKeepsInv(w: World, base: nat, es: seq<Event>)
    requires Inv(w, base) && Run(w, es).Some?
    ensures Inv(Run(w, es).value, base)
    ensures Run(w, es).value.entries[..base + 1] == w.entries[..base + 1]
    decreases |es|
  {
    if es != [] {
      StepKeepsInv(w, base, es[0]);
      RunKeepsInv(Step(w, es[0]), base, es[1..]);
    }
  }

  /** The address never moved, the entries below are untouched, and the cursor stands as many
      entries above as there are dialogs open, and one more while a back is pending. */
  predicate NoTrace(w: World, r: World)
    requires w.Valid()
  {
    && r.Valid() && r.cursor == w.cursor + |r.stack| + r.pending
    && r.entries[r.cursor].url == w.entries[w.cursor].url
    && r.entries[..w.cursor + 1] == w.entries[..w.cursor + 1]
  }

  predicate Quiet(w: World) { w.Valid() && w.stack == [] && w.pending == 0 }

  lemma QuietRuns(w: World, es: seq<Event>)
    requires Quiet(w) && Past(w, w.cursor) && Run(w, es).Some?
    ensures NoTrace(w, Run(w, es).value)
  {
    RunKeepsInv(w, w.cursor, es);
    var r := Run(w, es).value;
    assert r.entries[w.cursor] == r.entries[..w.cursor + 1][w.cursor] == w.entries[w.cursor];
  }

  /** One Back closes the only dialog exactly when the page's own entry is not marked with
      that dialog's id. */
  lemma OneBackClosesIff(w: World)
    requires Quiet(w)
    ensures Step(Step(w, Open), Back(true)).stack == [] <==> w.entries[w.cursor].modal != Some(w.nextId)
  {
    assert [w.nextId][..0] == [];
  }

  function OpenAndBack(k: nat): seq<Event> { if k == 0 then [] else [Open, Back(true)] + OpenAndBack(k - 1) }

  lemma RunTwo(w: World, a: Event, b: Event, es: seq<Event>)
    requires w.Valid() && Possible(w, a) && Disciplined(w, a)
    requires Possible(Step(w, a), b) && Disciplined(Step(w, a), b)
    ensures Run(w, [a, b] + es) == Run(Step(Step(w, a), b), es)
  {
    var all := [a, b] + es;
    assert all[1..] == [b] + es && ([b] + es)[1..] == es;
  }

  /** Dialogs opened and closed one at a time use up ids; `k` of them reach the mark. */
  lemma {:induction false} MarkReached(w: World, k: nat)
    requires Quiet(w) && w.entries[w.cursor].modal == Some(w.nextId + k)
    ensures var r := Run(w, OpenAndBack(k + 1));
      r.Some? && r.value.stack == [w.nextId + k] && r.value.cursor == w.cursor && r.value.pending == 0
    decreases k
  {
    var n := Step(Step(w, Open), Back(true));
    assert [w.nextId][..0] == [];
    RunTwo(w, Open, Back(true), OpenAndBack(k));
    if k > 0 {
      MarkReached(n, k - 1);
    } else {
      assert OpenAndBack(0) == [];
    }
  }

  /** On a quiet page, any mix of opening, Back, refused Back and Escape leaves no trace,
      whatever the run, exactly when the page's own entry is not marked with an id still to be
      given out. */
  lemma DialogsLeaveNoTrace(w: World)
    requires Quiet(w)
    ensures (forall es :: Run(w, es).Some? ==> NoTrace(w, Run(w, es).value)) <==> Past(w, w.cursor)
  {
    if Past(w, w.cursor) {
      forall es | Run(w, es).Some? ensures NoTrace(w, Run(w, es).value) { QuietRuns(w, es); }
    } else {
      var k := w.entries[w.cursor].modal.value - w.nextId;
      MarkReached(w, k);
      assert !NoTrace(w, Run(w, OpenAndBack(k + 1)).value);
    }
  }

  /** A reload: the history and its marks stay, the dialogs and the count of ids do not. */
  function Reload(w: World): World { w.(stack := [], nextId := 0, pending := 0) }

  /** A page reloaded with its first dialog open stands on that dialog's mark. The next dialog
      gets the same id, and one Back leaves it open. */
  lemma ReloadedPageKeepsDialog(url: string)
    ensures var page := World([Entry(url, None)], 0, [], 0, 0);
      var again := Reload(Step(page, Open));
      && again == World([Entry(url, None), Entry(url, Some(0))], 1, [], 0, 0)
      && Step(Step(again, Open), Back(true)).stack == [0]
  {
  }

  // ---- Where the discipline is needed ----

  /** Closing any dialog takes it off the stack, and asks for one more back exactly when the
      current entry is its own. */
  lemma CloseAsksBack(w: World, i: nat)
    requires w.Valid() && i < |w.stack| && Possible(w, Close(i))
    ensures var r := Step(w, Close(i));
      && r.stack == w.stack[..i] + w.stack[i + 1..] && r.entries == w.entries && r.cursor == w.cursor
      && r.pending == w.pending + (if w.entries[w.cursor].modal == Some(w.stack[i]) then 1 else 0)
  {
  }

  /** Closing keeps the invariant exactly for the innermost dialog. */
  lemma CloseKeepsInvIff(w: World, base: nat, i: nat)
    requires Inv(w, base) && w.pending == 0 && i < |w.stack|
    ensures Inv(Step(w, Close(i)), base) <==> i + 1 == |w.stack|
  {
    assert w.entries[base + 1 + i].modal == Some(w.stack[i]);
    if i + 1 == |w.stack| { StepKeepsInv(w, base, Close(i)); }
  }

  /** Forward over an open dialog keeps it exactly when there is nothing to go forward
      to; otherwise it lands on a dead sentinel and asks the open dialog to close. */
  lemma ForwardKeepsInvIff(w: World, base: nat, accept: bool)
    requires Inv(w, base) && w.pending == 0 && w.stack != []
    ensures Inv(Step(w, Forward(accept)), base) <==> w.cursor + 1 == |w.entries|
    ensures w.cursor + 1 < |w.entries| && accept ==> Step(w, Forward(accept)).stack == w.stack[..|w.stack| - 1]
  {
    assert w.Top() == w.stack[|w.stack| - 1];
  }

  /** Such an entry is really there: close an inner dialog with Escape, press Forward,
      and the outer one closes, two entries above the page. */
  lemma ForwardAfterEscape(url: string)
    ensures var w := World([Entry(url, None)], 0, [], 0, 0);
      var two := Step(Step(w, Open), Open);
      var one := Step(Step(two, Close(1)), Settle(true));
      one.stack == [0] && one.cursor == 1 &&
      Step(one, Forward(true)).stack == [] && Step(one, Forward(true)).cursor == 2
  {
  }

  /** A dialog opened before the last one's back was carried out is closed by it. */
  lemma SwapClosesTheNewDialog(w: World, base: nat)
    requires Inv(w, base) && w.pending == 0 && w.stack != []
    ensures var swapped := Step(Step(w, Close(|w.stack| - 1)), Open);
      swapped.pending == 1 && |swapped.stack| == |w.stack|
      && Step(swapped, Settle(true)).stack == w.stack[..|w.stack| - 1]
      && Step(swapped, Settle(true)).cursor == w.cursor
  {
    var n := |w.stack|;
    assert Without(w.stack, n - 1) == w.stack[..n - 1];
    assert w.entries[base + 1 + (n - 1)].modal == Some(w.Top());
    var swapped := Step(Step(w, Close(n - 1)), Open);
    assert swapped.stack[..n - 1] == w.stack[..n - 1];
    assert swapped.entries[w.cursor] == w.entries[w.cursor];
  }
}
