/**
 * The capture screen's bookkeeping: turning each new set of feedback
 * conditions from the capture session into remove/add calls on the timed
 * message list, the listener tasks attached to the session, and the path
 * of the reconstructed model file.
 *
 * The message list is not modelled: the calls made on it are recorded in
 * order. The text for a condition comes from a lookup given to the view.
 * Feedback conditions are a type parameter.
 */
module Capture {
  import opened Wrappers
  import Paths

  datatype CaptureMode = Object | Area

  /** One call on the timed message list. */
  datatype MessageOp = Remove(text: string) | Add(text: string)

  datatype Phase = Removing | Adding

  /** A listener task, numbered, and the session whose feedback it reads. */
  datatype ListenerTask = ListenerTask(id: nat, session: nat)

  // ---------------------------------------------------------------------
  // Reconciling feedback sets
  // ---------------------------------------------------------------------

  /** `order` lists every element of `s` once: one order in which a loop may visit a set. */
  ghost predicate Enumerates<F(!new)>(order: seq<F>, s: set<F>)
  {
    (forall i, j :: 0 <= i < j < |order| ==> order[i] != order[j])
    && (forall f :: f in order <==> f in s)
  }

  /** The calls one loop issues, in order, for the conditions of `order`: one per condition that has a text. */
  function MessageOps<F(!new)>(order: seq<F>, lookup: (F, CaptureMode) -> Option<string>, mode: CaptureMode, phase: Phase)
    : (ops: seq<MessageOp>)
    ensures |ops| <= |order|
    ensures forall k :: 0 <= k < |ops| ==> (ops[k].Remove? <==> phase == Removing)
    decreases |order|
  {
    if order == [] then []
    else
      var calls := MessageOps(order[..|order| - 1], lookup, mode, phase);
      match lookup(order[|order| - 1], mode)
      case None => calls
      case Some(t) => calls + [if phase == Removing then Remove(t) else Add(t)]
  }

  /** The texts the calls of a sequence mention. */
  function Texts(ops: seq<MessageOp>): set<string>
  {
    set k | 0 <= k < |ops| :: ops[k].text
  }

  /** The texts of the conditions of a set that have one in the given mode. */
  function MappedTexts<F(!new)>(conditions: set<F>, lookup: (F, CaptureMode) -> Option<string>, mode: CaptureMode): set<string>
  {
    set f | f in conditions && lookup(f, mode).Some? :: lookup(f, mode).value
  }

  /** The conditions of a set that have a text in the given mode. */
  function MappedConditions<F(!new)>(conditions: set<F>, lookup: (F, CaptureMode) -> Option<string>, mode: CaptureMode): set<F>
  {
    set f | f in conditions && lookup(f, mode).Some?
  }

  /** A loop over an enumeration of a set mentions exactly the texts of the set's conditions. */
  lemma {:induction false} MessageOpsTexts<F(!new)>(order: seq<F>, s: set<F>,
                                                    lookup: (F, CaptureMode) -> Option<string>, mode: CaptureMode, phase: Phase)
    requires Enumerates(order, s)
    ensures Texts(MessageOps(order, lookup, mode, phase)) == MappedTexts(s, lookup, mode)
    decreases |order|
  {
    if order == [] {
      assert s == {} by {
        assert forall f :: f in s ==> f in order;
      }
    } else {
      var init := order[..|order| - 1];
      var f := order[|order| - 1];
      EnumeratesInit(order, s);
      MessageOpsTexts(init, s - {f}, lookup, mode, phase);
      var calls := MessageOps(init, lookup, mode, phase);
      var ops := MessageOps(order, lookup, mode, phase);
      if lookup(f, mode).Some? {
        assert ops == calls + [ops[|ops| - 1]];
        assert Texts(ops) == Texts(calls) + {lookup(f, mode).value} by {
          forall k | 0 <= k < |calls| ensures ops[k] == calls[k] { }
        }
        assert MappedTexts(s, lookup, mode) == MappedTexts(s - {f}, lookup, mode) + {lookup(f, mode).value};
      } else {
        assert MappedTexts(s, lookup, mode) == MappedTexts(s - {f}, lookup, mode);
      }
    }
  }

  /** Dropping the last element of an enumeration enumerates the set without it. */
  lemma EnumeratesInit<F(!new)>(order: seq<F>, s: set<F>)
    requires Enumerates(order, s) && order != []
    ensures Enumerates(order[..|order| - 1], s - {order[|order| - 1]})
  {
    var init := order[..|order| - 1];
    var f := order[|order| - 1];
    forall g ensures g in init <==> g in s - {f} {
      if g in init {
        var i :| 0 <= i < |init| && init[i] == g;
        assert order[i] == g;
      }
      if g in s - {f} {
        var i :| 0 <= i < |order| && order[i] == g;
        assert i < |init| && init[i] == g;
      }
    }
  }

  /** Appending an element not yet visited extends an enumeration. */
  lemma EnumeratesSnoc<F(!new)>(order: seq<F>, s: set<F>, f: F)
    requires Enumerates(order, s) && f !in s
    ensures Enumerates(order + [f], s + {f})
  {
    var r := order + [f];
    forall g ensures g in r <==> g in s + {f} {
      if g in r {
        var i :| 0 <= i < |r| && r[i] == g;
        if i < |order| { assert order[i] == g; }
      }
      if g in s {
        var i :| 0 <= i < |order| && order[i] == g;
        assert r[i] == g;
      }
      if g == f {
        assert r[|order|] == g;
      }
    }
  }

  /** One turn of a loop that visits `all`: the element taken from `left` extends the visiting order and its calls. */
  lemma VisitStep<F(!new)>(order: seq<F>, all: set<F>, left: set<F>, f: F,
                           lookup: (F, CaptureMode) -> Option<string>, mode: CaptureMode, phase: Phase)
    requires Enumerates(order, all - left) && left <= all && f in left
    ensures Enumerates(order + [f], all - (left - {f}))
    ensures MessageOps(order + [f], lookup, mode, phase)
            == MessageOps(order, lookup, mode, phase)
               + (match lookup(f, mode)
                  case Some(t) => [if phase == Removing then Remove(t) else Add(t)]
                  case None => [])
  {
    assert (order + [f])[..|order|] == order;
    EnumeratesSnoc(order, all - left, f);
    assert all - left + {f} == all - (left - {f});
  }

  /**
   * The calls one feedback update may issue: for some order of visiting
   * `previous - incoming`, one remove per condition that has a text, then,
   * for some order of visiting `incoming - previous`, one add per condition
   * that has a text.
   */
  ghost predicate IsReconcileTrace<F(!new)>(ops: seq<MessageOp>, previous: set<F>, incoming: set<F>,
                                            lookup: (F, CaptureMode) -> Option<string>, mode: CaptureMode)
  {
    exists removeOrder: seq<F>, addOrder: seq<F> ::
      Enumerates(removeOrder, previous - incoming) && Enumerates(addOrder, incoming - previous)
      && ops == MessageOps(removeOrder, lookup, mode, Removing) + MessageOps(addOrder, lookup, mode, Adding)
  }

  /** Visiting the vanished conditions, then the new ones, issues a reconcile trace. */
  lemma ReconcileTraceOf<F(!new)>(ops: seq<MessageOp>, previous: set<F>, incoming: set<F>, removeOrder: seq<F>, addOrder: seq<F>,
                                  lookup: (F, CaptureMode) -> Option<string>, mode: CaptureMode)
    requires Enumerates(removeOrder, previous - previous * incoming)
    requires Enumerates(addOrder, incoming - previous * incoming)
    requires ops == MessageOps(removeOrder, lookup, mode, Removing) + MessageOps(addOrder, lookup, mode, Adding)
    ensures IsReconcileTrace(ops, previous, incoming, lookup, mode)
  {
    ReconcileSets(previous, incoming);
  }

  /** The calls made after a prefix are what was appended to it. */
  lemma AppendedCalls(all: seq<MessageOp>, prefix: seq<MessageOp>, removes: seq<MessageOp>, adds: seq<MessageOp>)
    requires all == prefix + removes + adds
    ensures |prefix| <= |all| && all[..|prefix|] == prefix && all[|prefix|..] == removes + adds
  {
  }

  /** The sets the update computes: those it drops and adds, and those it leaves alone. */
  lemma ReconcileSets<F(!new)>(currentFeedback: set<F>, feedback: set<F>)
    ensures var persistent := currentFeedback * feedback;
            && currentFeedback - persistent == currentFeedback - feedback
            && feedback - persistent == feedback - currentFeedback
            && (currentFeedback - persistent) !! feedback
            && (feedback - persistent) !! currentFeedback
  {
  }

  /**
   * One remove per vanished condition that has a text, then one add per new
   * condition that has a text: every remove precedes every add.
   */
  lemma ReconcileCounts<F(!new)>(ops: seq<MessageOp>, previous: set<F>, incoming: set<F>,
                                 lookup: (F, CaptureMode) -> Option<string>, mode: CaptureMode)
    requires IsReconcileTrace(ops, previous, incoming, lookup, mode)
    ensures |ops| == |MappedConditions(previous - incoming, lookup, mode)| + |MappedConditions(incoming - previous, lookup, mode)|
    ensures forall i :: 0 <= i < |MappedConditions(previous - incoming, lookup, mode)| ==> ops[i].Remove?
    ensures forall i :: |MappedConditions(previous - incoming, lookup, mode)| <= i < |ops| ==> ops[i].Add?
  {
    var gone, arrived := previous - incoming, incoming - previous;
    var removeOrder, addOrder :|
      Enumerates(removeOrder, gone) && Enumerates(addOrder, arrived)
      && ops == MessageOps(removeOrder, lookup, mode, Removing) + MessageOps(addOrder, lookup, mode, Adding);
    var removes := MessageOps(removeOrder, lookup, mode, Removing);
    var adds := MessageOps(addOrder, lookup, mode, Adding);
    MessageOpsCount(removeOrder, gone, lookup, mode, Removing);
    MessageOpsCount(addOrder, arrived, lookup, mode, Adding);
    SplitCalls(ops, removes, adds);
  }

  /** In a remove phase followed by an add phase, the first calls are removes and the rest adds. */
  lemma SplitCalls(ops: seq<MessageOp>, removes: seq<MessageOp>, adds: seq<MessageOp>)
    requires ops == removes + adds
    requires forall k :: 0 <= k < |removes| ==> removes[k].Remove?
    requires forall k :: 0 <= k < |adds| ==> !adds[k].Remove?
    ensures forall i :: 0 <= i < |removes| ==> ops[i].Remove?
    ensures forall i :: |removes| <= i < |ops| ==> ops[i].Add?
  {
    assert forall i :: |removes| <= i < |ops| ==> ops[i] == adds[i - |removes|];
    assert forall i :: 0 <= i < |removes| ==> ops[i] == removes[i];
  }

  /** The texts removed are exactly those of the conditions that went away; the texts added, those of the new conditions. */
  lemma ReconcileTexts<F(!new)>(ops: seq<MessageOp>, previous: set<F>, incoming: set<F>,
                                lookup: (F, CaptureMode) -> Option<string>, mode: CaptureMode)
    requires IsReconcileTrace(ops, previous, incoming, lookup, mode)
    ensures exists k :: 0 <= k <= |ops|
              && Texts(ops[..k]) == MappedTexts(previous - incoming, lookup, mode)
              && Texts(ops[k..]) == MappedTexts(incoming - previous, lookup, mode)
              && (forall i :: 0 <= i < k ==> ops[i].Remove?)
              && (forall i :: k <= i < |ops| ==> ops[i].Add?)
  {
    var removeOrder, addOrder :|
      Enumerates(removeOrder, previous - incoming) && Enumerates(addOrder, incoming - previous)
      && ops == MessageOps(removeOrder, lookup, mode, Removing) + MessageOps(addOrder, lookup, mode, Adding);
    var removes := MessageOps(removeOrder, lookup, mode, Removing);
    var adds := MessageOps(addOrder, lookup, mode, Adding);
    MessageOpsTexts(removeOrder, previous - incoming, lookup, mode, Removing);
    MessageOpsTexts(addOrder, incoming - previous, lookup, mode, Adding);
    var k := |removes|;
    assert ops[..k] == removes && ops[k..] == adds;
  }

  /** One call per condition that has a text, and none for those without. */
  lemma {:induction false} MessageOpsCount<F(!new)>(order: seq<F>, s: set<F>,
                                                    lookup: (F, CaptureMode) -> Option<string>, mode: CaptureMode, phase: Phase)
    requires Enumerates(order, s)
    ensures |MessageOps(order, lookup, mode, phase)| == |MappedConditions(s, lookup, mode)|
    decreases |order|
  {
    if order != [] {
      var f := order[|order| - 1];
      EnumeratesInit(order, s);
      MessageOpsCount(order[..|order| - 1], s - {f}, lookup, mode, phase);
      MappedConditionsStep(s, f, lookup, mode);
    } else {
      assert MappedConditions(s, lookup, mode) == {} by {
        assert forall f :: f in s ==> f in order;
      }
    }
  }

  /** Taking one condition out of a set takes it out of the conditions that have a text. */
  lemma MappedConditionsStep<F(!new)>(s: set<F>, f: F, lookup: (F, CaptureMode) -> Option<string>, mode: CaptureMode)
    requires f in s
    ensures |MappedConditions(s, lookup, mode)|
            == |MappedConditions(s - {f}, lookup, mode)| + (if lookup(f, mode).Some? then 1 else 0)
  {
    var mappedRest := MappedConditions(s - {f}, lookup, mode);
    if lookup(f, mode).Some? {
      assert MappedConditions(s, lookup, mode) == mappedRest + {f};
    } else {
      assert MappedConditions(s, lookup, mode) == mappedRest;
    }
  }

  /** A condition in both sets is left alone: no call mentions its text unless a changed condition has the same text. */
  lemma PersistentConditionUntouched<F(!new)>(ops: seq<MessageOp>, previous: set<F>, incoming: set<F>,
                                              lookup: (F, CaptureMode) -> Option<string>, mode: CaptureMode, f: F, t: string)
    requires IsReconcileTrace(ops, previous, incoming, lookup, mode)
    requires f in previous && f in incoming && lookup(f, mode) == Some(t)
    requires forall g :: g in previous - incoming || g in incoming - previous ==> lookup(g, mode) != Some(t)
    ensures forall k :: 0 <= k < |ops| ==> ops[k].text != t
  {
    ReconcileTexts(ops, previous, incoming, lookup, mode);
    var j :| 0 <= j <= |ops|
              && Texts(ops[..j]) == MappedTexts(previous - incoming, lookup, mode)
              && Texts(ops[j..]) == MappedTexts(incoming - previous, lookup, mode);
    forall k | 0 <= k < |ops| ensures ops[k].text != t {
      if k < j {
        assert ops[..j][k] == ops[k];
        assert ops[k].text in Texts(ops[..j]);
      } else {
        assert ops[j..][k - j] == ops[k];
        assert ops[k].text in Texts(ops[j..]);
      }
    }
  }

  /** An update with the set already shown issues no calls. */
  lemma UnchangedFeedbackIsSilent<F(!new)>(ops: seq<MessageOp>, feedback: set<F>,
                                           lookup: (F, CaptureMode) -> Option<string>, mode: CaptureMode)
    requires IsReconcileTrace(ops, feedback, feedback, lookup, mode)
    ensures ops == []
  {
    var removeOrder, addOrder :|
      Enumerates(removeOrder, feedback - feedback) && Enumerates(addOrder, feedback - feedback)
      && ops == MessageOps(removeOrder, lookup, mode, Removing) + MessageOps(addOrder, lookup, mode, Adding);
    MessageOpsCount(removeOrder, feedback - feedback, lookup, mode, Removing);
    MessageOpsCount(addOrder, feedback - feedback, lookup, mode, Adding);
    assert MappedConditions(feedback - feedback, lookup, mode) == {};
  }

  /** The feedback set an update starts from: the last one delivered, or the starting one. */
  function LastFeedback<F(!new)>(start: set<F>, updates: seq<set<F>>): set<F>
  {
    if updates == [] then start else updates[|updates| - 1]
  }

  /** The calls a run of updates issues: each update's calls, in delivery order. */
  ghost predicate IsUpdatesTrace<F(!new)>(ops: seq<MessageOp>, start: set<F>, updates: seq<set<F>>,
                                    lookup: (F, CaptureMode) -> Option<string>, mode: CaptureMode)
    decreases |updates|
  {
    if updates == [] then ops == []
    else
      var earlier := updates[..|updates| - 1];
      exists k :: 0 <= k <= |ops|
        && IsUpdatesTrace(ops[..k], start, earlier, lookup, mode)
        && IsReconcileTrace(ops[k..], LastFeedback(start, earlier), updates[|updates| - 1], lookup, mode)
  }

  /** A further update's calls extend the trace of a run of updates. */
  lemma UpdatesTraceSnoc<F(!new)>(ops: seq<MessageOp>, more: seq<MessageOp>, start: set<F>, updates: seq<set<F>>,
                                  update: set<F>, lookup: (F, CaptureMode) -> Option<string>, mode: CaptureMode)
    requires IsUpdatesTrace(ops, start, updates, lookup, mode)
    requires IsReconcileTrace(more, LastFeedback(start, updates), update, lookup, mode)
    ensures IsUpdatesTrace(ops + more, start, updates + [update], lookup, mode)
  {
    var all := ops + more;
    var k := |ops|;
    assert all[..k] == ops && all[k..] == more;
    assert (updates + [update])[..|updates|] == updates;
  }

  /** The calls of one more update, made after those of a run, extend the run's trace. */
  lemma TraceGrows<F(!new)>(all: seq<MessageOp>, before: seq<MessageOp>, base: nat, start: set<F>, updates: seq<set<F>>,
                            update: set<F>, lookup: (F, CaptureMode) -> Option<string>, mode: CaptureMode)
    requires base <= |before| <= |all| && all[..|before|] == before
    requires IsUpdatesTrace(before[base..], start, updates, lookup, mode)
    requires IsReconcileTrace(all[|before|..], LastFeedback(start, updates), update, lookup, mode)
    ensures all[..base] == before[..base]
    ensures IsUpdatesTrace(all[base..], start, updates + [update], lookup, mode)
  {
    assert all[base..] == before[base..] + all[|before|..];
    UpdatesTraceSnoc(before[base..], all[|before|..], start, updates, update, lookup, mode);
  }

  /** Delivering the set already shown again adds no calls to a run's trace. */
  lemma RepeatedUpdateIsSilent<F(!new)>(ops: seq<MessageOp>, start: set<F>, updates: seq<set<F>>,
                                        lookup: (F, CaptureMode) -> Option<string>, mode: CaptureMode)
    requires IsUpdatesTrace(ops, start, updates + [LastFeedback(start, updates)], lookup, mode)
    ensures IsUpdatesTrace(ops, start, updates, lookup, mode)
  {
    var all := updates + [LastFeedback(start, updates)];
    assert all[..|all| - 1] == updates;
    var k :| 0 <= k <= |ops|
      && IsUpdatesTrace(ops[..k], start, updates, lookup, mode)
      && IsReconcileTrace(ops[k..], LastFeedback(start, updates), LastFeedback(start, updates), lookup, mode);
    UnchangedFeedbackIsSilent(ops[k..], LastFeedback(start, updates), lookup, mode);
    assert ops[..k] == ops;
  }

  // ---------------------------------------------------------------------
  // Output file
  // ---------------------------------------------------------------------

  const ModelFileName := "model-mobile.usdz"

  /** The file name is a single, non-empty path component. */
  lemma ModelFileNameIsComponent()
    ensures '/' !in ModelFileName && ModelFileName != ""
  {
  }

  /** Where reconstruction writes the model: the file "model-mobile.usdz" in the models folder. */
  function ReconstructionOutputFile(modelsFolder: string): (r: string)
    ensures Paths.LastPathComponent(r) == ModelFileName
    ensures r == if |modelsFolder| > 0 && modelsFolder[|modelsFolder| - 1] == '/' then modelsFolder + ModelFileName
                 else modelsFolder + "/" + ModelFileName
  {
    ModelFileNameIsComponent();
    Paths.LastOfAppended(modelsFolder, ModelFileName);
    Paths.AppendingPathComponent(modelsFolder, ModelFileName)
  }

  // ---------------------------------------------------------------------
  // The capture view
  // ---------------------------------------------------------------------

  class CaptureView<Feedback(==, !new)> {
    /** `FeedbackMessages.getFeedbackString`. */
    const feedbackString: (Feedback, CaptureMode) -> Option<string>
    var captureMode: CaptureMode
    var currentFeedback: set<Feedback>
    /** The calls made on the timed message list, oldest first. */
    var messageOps: seq<MessageOp>
    /** The session the view shows, by number. */
    var sessionId: nat
    var tasks: seq<ListenerTask>
    /** The tasks cancelled so far, in the order they were cancelled. */
    var cancelledTasks: seq<ListenerTask>
    var nextTaskId: nat

    /** Every live task listens to the current session, is numbered, and has not been cancelled. */
    ghost predicate Valid()
      reads this
    {
      (forall t :: t in tasks ==> t.session == sessionId && t.id < nextTaskId && t !in cancelledTasks)
      && (forall t :: t in cancelledTasks ==> t.id < nextTaskId)
    }

    constructor (session: nat, lookup: (Feedback, CaptureMode) -> Option<string>)
      ensures Valid()
      ensures feedbackString == lookup && captureMode == Object && currentFeedback == {}
      ensures messageOps == [] && sessionId == session
      ensures tasks == [] && cancelledTasks == [] && nextTaskId == 0
    {
      feedbackString := lookup;
      captureMode := Object;
      currentFeedback := {};
      messageOps := [];
      sessionId := session;
      tasks := [];
      cancelledTasks := [];
      nextTaskId := 0;
    }

    /** Start one task that listens to the current session's feedback. */
    method AttachListeners()
      requires Valid()
      modifies this`tasks, this`nextTaskId
      ensures Valid()
      ensures tasks == old(tasks) + [ListenerTask(old(nextTaskId), sessionId)]
      ensures nextTaskId == old(nextTaskId) + 1
    {
      tasks := tasks + [ListenerTask(nextTaskId, sessionId)];
      nextTaskId := nextTaskId + 1;
    }

    /** Cancel every task, in order, and forget them. */
    method DetachListeners()
      requires Valid()
      modifies this`tasks, this`cancelledTasks
      ensures Valid()
      ensures tasks == []
      ensures cancelledTasks == old(cancelledTasks) + old(tasks)
    {
      for i := 0 to |tasks|
        invariant tasks == old(tasks)
        invariant cancelledTasks == old(cancelledTasks) + tasks[..i]
        invariant forall t :: t in cancelledTasks ==> t.id < nextTaskId
      {
        cancelledTasks := cancelledTasks + [tasks[i]];
      }
      assert tasks[..|tasks|] == tasks;
      tasks := [];
    }

    /** Assigning `session`: its observers detach before and attach after the assignment. */
    method ReplaceSession(newSession: nat)
      requires Valid()
      modifies this`sessionId, this`tasks, this`cancelledTasks, this`nextTaskId
      ensures Valid()
      ensures sessionId == newSession
      ensures tasks == [ListenerTask(old(nextTaskId), newSession)]
      ensures cancelledTasks == old(cancelledTasks) + old(tasks)
      ensures nextTaskId == old(nextTaskId) + 1
    {
      DetachListeners();
      sessionId := newSession;
      AttachListeners();
    }

    /** Reconcile the message list with a new set of feedback conditions. */
    method UpdateFeedbackMessages(feedback: set<Feedback>)
      modifies this`currentFeedback, this`messageOps
      ensures currentFeedback == feedback
      ensures |old(messageOps)| <= |messageOps| && messageOps[..|old(messageOps)|] == old(messageOps)
      ensures IsReconcileTrace(messageOps[|old(messageOps)|..], old(currentFeedback), feedback, feedbackString, captureMode)
    {
      var persistentFeedback := currentFeedback * feedback;

      var feedbackToRemove := currentFeedback - persistentFeedback;
      ghost var removeOrder: seq<Feedback> := [];
      var left := feedbackToRemove;
      while left != {}
        invariant left <= feedbackToRemove
        invariant Enumerates(removeOrder, feedbackToRemove - left)
        invariant messageOps == old(messageOps) + MessageOps(removeOrder, feedbackString, captureMode, Removing)
        modifies this`messageOps
        decreases left
      {
        var thisFeedback :| thisFeedback in left;
        match feedbackString(thisFeedback, captureMode) {
          case Some(feedbackText) => messageOps := messageOps + [Remove(feedbackText)];
          case None =>
        }
        VisitStep(removeOrder, feedbackToRemove, left, thisFeedback, feedbackString, captureMode, Removing);
        removeOrder := removeOrder + [thisFeedback];
        left := left - {thisFeedback};
      }
      assert feedbackToRemove - left == feedbackToRemove;
      ghost var removes := MessageOps(removeOrder, feedbackString, captureMode, Removing);

      var feedbackToAdd := feedback - persistentFeedback;
      ghost var addOrder: seq<Feedback> := [];
      left := feedbackToAdd;
      while left != {}
        invariant left <= feedbackToAdd
        invariant Enumerates(addOrder, feedbackToAdd - left)
        invariant messageOps == old(messageOps) + removes + MessageOps(addOrder, feedbackString, captureMode, Adding)
        modifies this`messageOps
        decreases left
      {
        var thisFeedback :| thisFeedback in left;
        match feedbackString(thisFeedback, captureMode) {
          case Some(feedbackText) => messageOps := messageOps + [Add(feedbackText)];
          case None =>
        }
        VisitStep(addOrder, feedbackToAdd, left, thisFeedback, feedbackString, captureMode, Adding);
        addOrder := addOrder + [thisFeedback];
        left := left - {thisFeedback};
      }

      assert feedbackToAdd - left == feedbackToAdd;
      ghost var adds := MessageOps(addOrder, feedbackString, captureMode, Adding);
      AppendedCalls(messageOps, old(messageOps), removes, adds);
      ReconcileTraceOf(messageOps[|old(messageOps)|..], old(currentFeedback), feedback, removeOrder, addOrder,
                       feedbackString, captureMode);
      currentFeedback := feedback;
    }

    /** A listener task's loop: one reconciliation per delivered feedback set. */
    method ReceiveFeedbackUpdates(updates: seq<set<Feedback>>)
      modifies this`currentFeedback, this`messageOps
      ensures currentFeedback == LastFeedback(old(currentFeedback), updates)
      ensures |old(messageOps)| <= |messageOps| && messageOps[..|old(messageOps)|] == old(messageOps)
      ensures IsUpdatesTrace(messageOps[|old(messageOps)|..], old(currentFeedback), updates, feedbackString, captureMode)
    {
      for i := 0 to |updates|
        invariant currentFeedback == LastFeedback(old(currentFeedback), updates[..i])
        invariant |old(messageOps)| <= |messageOps| && messageOps[..|old(messageOps)|] == old(messageOps)
        invariant IsUpdatesTrace(messageOps[|old(messageOps)|..], old(currentFeedback), updates[..i], feedbackString, captureMode)
      {
        ghost var before := messageOps;
        UpdateFeedbackMessages(updates[i]);
        assert updates[..i + 1] == updates[..i] + [updates[i]];
        TraceGrows(messageOps, before, |old(messageOps)|, old(currentFeedback), updates[..i], updates[i],
                   feedbackString, captureMode);
      }
      assert updates[..|updates|] == updates;
    }
  }
}
