/**
 What automation runs do to a conversation: they append hidden and visible messages, move the current leaf, hide an answer that is
 not to be delivered, and clean up when the conversation is deleted.
 */
module Conversation {
  import opened Wrappers
  import opened BranchSelection

  /** internal: not shown and not counted. deleted: soft-deleted, invisible to every query here. */
  datatype Message = Message(parent: Option<MessageId>, internal: bool, deleted: bool, unfinished: bool)

  datatype Tree = Tree(messages: map<MessageId, Message>, leaf: Option<MessageId>, messageCount: int, recycled: bool)

  datatype Prepared = Ready(parent: MessageId) | Busy | Stopped

  predicate IsLive(t: Tree, id: MessageId) {
    id in t.messages && !t.messages[id].deleted
  }

  predicate HasUnfinished(t: Tree) {
    exists id :: id in t.messages && !t.messages[id].deleted && t.messages[id].unfinished
  }

  function ParentsIn(t: Tree): Parents {
    map id | id in t.messages && !t.messages[id].deleted :: t.messages[id].parent
  }

  function Counted(t: Tree): set<MessageId> {
    set id | id in t.messages && !t.messages[id].deleted && !t.messages[id].internal
  }

  predicate HasBranch(t: Tree) {
    t.leaf.Some? && IsLive(t, t.leaf.value)
  }

  function CurrentBranch(t: Tree): seq<MessageId>
    requires HasBranch(t)
  {
    Branch(ParentsIn(t), t.leaf.value)
  }

  // ---------------------------------------------------------------- transactions

  function PrepareAnswer(t: Tree, runIsOurs: bool, chatBusy: bool, otherRun: bool): Prepared {
    if t.recycled || !runIsOurs then Stopped
    else if chatBusy || HasUnfinished(t) || otherRun then Busy
    else if !HasBranch(t) then Stopped
    else Ready(t.leaf.value)
  }

  /** prepareMessages: an internal instruction and an empty answer, both below the current leaf. */
  function Prepare(t: Tree, runIsOurs: bool, chatBusy: bool, otherRun: bool, user: MessageId, assistant: MessageId): Tree {
    var answer := PrepareAnswer(t, runIsOurs, chatBusy, otherRun);
    if !answer.Ready? then t
    else Tree(t.messages[user := Message(Some(answer.parent), true, false, false)]
                        [assistant := Message(Some(answer.parent), false, false, true)],
              Some(assistant), t.messageCount + 1, false)
  }

  /** The part of the guard of publishExpiryNotice that looks at the conversation. */
  predicate NoticeFits(t: Tree, chatBusy: bool, otherRun: bool) {
    !t.recycled && !chatBusy && !HasUnfinished(t) && !otherRun && HasBranch(t)
  }

  /** publishExpiryNotice; wanted is the part of its guard that looks at the automation. */
  function PublishNotice(t: Tree, wanted: bool, chatBusy: bool, otherRun: bool, notice: MessageId): Tree {
    if !wanted || !NoticeFits(t, chatBusy, otherRun) then t
    else t.(messages := t.messages[notice := Message(t.leaf, false, false, false)],
            leaf := Some(notice), messageCount := t.messageCount + 1)
  }

  /** updateMany: the live children of a move below p. */
  function Reparent(messages: map<MessageId, Message>, a: MessageId, p: MessageId): map<MessageId, Message> {
    map id | id in messages ::
      if !messages[id].deleted && messages[id].parent == Some(a) then messages[id].(parent := Some(p)) else messages[id]
  }

  /** hideSuppressedMessage. */
  function Hide(t: Tree, a: MessageId, restore: MessageId, originalParent: MessageId): Tree {
    if !IsLive(t, a) || !IsLive(t, restore) then t
    else
      var messages := Reparent(t.messages[a := t.messages[a].(internal := true)], a, originalParent);
      if t.recycled then t.(messages := messages)
      else if t.leaf == Some(a) then t.(messages := messages, leaf := Some(restore), messageCount := t.messageCount - 1)
      else t.(messages := messages, messageCount := t.messageCount - 1)
  }

  /** restoreAdvancedLeaf. */
  function RestoreLeaf(t: Tree, a: MessageId, before: Option<MessageId>): Tree {
    if before.None? || before.value == a || !IsLive(t, before.value) || t.recycled || t.leaf != Some(a) then t
    else t.(leaf := before)
  }

  /** Conversation deletion, for the answer of one running automation. */
  function CleanUp(t: Tree, a: MessageId): Tree {
    if !IsLive(t, a) then t
    else
      var m := t.messages[a];
      var hidden := t.messages[a := m.(internal := true, unfinished := false)];
      var count := if m.internal then t.messageCount else t.messageCount - 1;
      if m.parent.None? then t.(messages := hidden, messageCount := count)
      else t.(messages := Reparent(hidden, a, m.parent.value), messageCount := count,
              leaf := if t.leaf == Some(a) then m.parent else t.leaf)
  }

  function CleanUpAll(t: Tree, answers: seq<MessageId>): Tree
    decreases |answers|
  {
    if answers == [] then t else CleanUp(CleanUpAll(t, answers[..|answers| - 1]), answers[|answers| - 1])
  }

  // ---------------------------------------------------------------- in place

  class Store {
    var messages: map<MessageId, Message>
    var leaf: Option<MessageId>
    var messageCount: int
    var recycled: bool
    /** The automations whose expiry notice was sent. */
    var noticed: set<string>

    constructor (t: Tree)
      ensures View() == t && noticed == {}
    {
      messages, leaf, messageCount, recycled, noticed := t.messages, t.leaf, t.messageCount, t.recycled, {};
    }

    ghost function View(): Tree
      reads this
    {
      Tree(messages, leaf, messageCount, recycled)
    }

    method PrepareMessages(runIsOurs: bool, chatBusy: bool, otherRun: bool, user: MessageId, assistant: MessageId) returns (r: Prepared)
      modifies this`messages, this`leaf, this`messageCount
      ensures r == PrepareAnswer(old(View()), runIsOurs, chatBusy, otherRun)
      ensures View() == Prepare(old(View()), runIsOurs, chatBusy, otherRun, user, assistant)
    {
      if recycled || !runIsOurs {
        return Stopped;
      }
      var unfinished := exists id :: id in messages && !messages[id].deleted && messages[id].unfinished;
      if chatBusy || unfinished || otherRun {
        return Busy;
      }
      if leaf.None? || leaf.value !in messages || messages[leaf.value].deleted {
        return Stopped;
      }
      var parent := leaf.value;
      messages := messages[user := Message(Some(parent), true, false, false)];
      messages := messages[assistant := Message(Some(parent), false, false, true)];
      messageCount := messageCount + 1;
      leaf := Some(assistant);
      return Ready(parent);
    }

    /** `expired` tells whether the automation completed as expired; it is noticed once. */
    method PublishExpiryNotice(automation: string, expired: bool, chatBusy: bool, otherRun: bool, notice: MessageId)
      returns (published: bool)
      modifies this
      ensures View() == PublishNotice(old(View()), expired && automation !in old(noticed), chatBusy, otherRun, notice)
      ensures published <==> expired && automation !in old(noticed) && NoticeFits(old(View()), chatBusy, otherRun)
      ensures noticed == if published then old(noticed) + {automation} else old(noticed)
    {
      var unfinished := exists id :: id in messages && !messages[id].deleted && messages[id].unfinished;
      if !expired || automation in noticed || recycled || leaf.None? || chatBusy || unfinished || otherRun {
        return false;
      }
      if leaf.value !in messages || messages[leaf.value].deleted {
        return false;
      }
      messages := messages[notice := Message(leaf, false, false, false)];
      messageCount := messageCount + 1;
      leaf := Some(notice);
      noticed := noticed + {automation};
      return true;
    }

    method HideSuppressedMessage(a: MessageId, restore: MessageId, originalParent: MessageId)
      modifies this`messages, this`leaf, this`messageCount
      ensures View() == Hide(old(View()), a, restore, originalParent)
    {
      if a !in messages || messages[a].deleted || restore !in messages || messages[restore].deleted {
        return;
      }
      messages := messages[a := messages[a].(internal := true)];
      messages := Reparent(messages, a, originalParent);
      var restored := !recycled && leaf == Some(a);
      if restored {
        leaf := Some(restore);
        messageCount := messageCount - 1;
      }
      if !restored && !recycled {
        messageCount := messageCount - 1;
      }
    }

    method RestoreAdvancedLeaf(a: MessageId, before: Option<MessageId>)
      modifies this`messages, this`leaf, this`messageCount
      ensures View() == RestoreLeaf(old(View()), a, before)
    {
      if before.None? || before.value == a {
        return;
      }
      if before.value !in messages || messages[before.value].deleted {
        return;
      }
      if !recycled && leaf == Some(a) {
        leaf := before;
      }
    }

    /** The message part of cancelByConversationInTransaction: a loop over the answers of the stopped runs. */
    method CleanUpAnswers(answers: seq<MessageId>)
      modifies this`messages, this`leaf, this`messageCount
      ensures View() == CleanUpAll(old(View()), answers)
    {
      for k := 0 to |answers|
        invariant View() == CleanUpAll(old(View()), answers[..k])
      {
        ghost var before := View();
        var a := answers[k];
        if a in messages && !messages[a].deleted {
          var m := messages[a];
          messages := messages[a := m.(internal := true, unfinished := false)];
          if m.parent.Some? {
            messages := Reparent(messages, a, m.parent.value);
            if leaf == Some(a) {
              leaf := m.parent;
            }
          }
          if !m.internal {
            messageCount := messageCount - 1;
          }
        }
        assert View() == CleanUp(before, a);
        assert answers[..k + 1][..k] == answers[..k];
      }
      assert answers[..|answers|] == answers;
    }
  }

  // ---------------------------------------------------------------- what each transaction does to each message

  /** When a run prepares, must wait, or is over. */
  lemma PreparedIff(t: Tree, runIsOurs: bool, chatBusy: bool, otherRun: bool)
    ensures var r := PrepareAnswer(t, runIsOurs, chatBusy, otherRun);
      var waits := chatBusy || otherRun || exists m <- t.messages :: !t.messages[m].deleted && t.messages[m].unfinished;
      var hasLeaf := t.leaf.Some? && t.leaf.value in t.messages && !t.messages[t.leaf.value].deleted;
      && (r == Stopped <==> t.recycled || !runIsOurs || (!waits && !hasLeaf))
      && (r == Busy <==> !t.recycled && runIsOurs && waits)
      && (r.Ready? <==> !t.recycled && runIsOurs && !waits && hasLeaf)
      && (r.Ready? ==> t.leaf == Some(r.parent))
  {
  }

  /** A prepared run adds an internal instruction and an unfinished answer below the leaf; the answer is counted and becomes the leaf. */
  lemma PreparedMessages(t: Tree, runIsOurs: bool, chatBusy: bool, otherRun: bool, user: MessageId, assistant: MessageId)
    requires user !in t.messages && assistant !in t.messages && user != assistant
    ensures var r, u := PrepareAnswer(t, runIsOurs, chatBusy, otherRun), Prepare(t, runIsOurs, chatBusy, otherRun, user, assistant);
      && (!r.Ready? ==> u == t)
      && (r.Ready? ==>
            && u.messages.Keys == t.messages.Keys + {user, assistant}
            && (forall m <- t.messages :: u.messages[m] == t.messages[m])
            && u.messages[user] == Message(t.leaf, true, false, false) && u.messages[assistant] == Message(t.leaf, false, false, true)
            && u.leaf == Some(assistant) && u.messageCount == t.messageCount + 1 && u.recycled == t.recycled)
  {
  }

  /** When an expiry notice is published, and what it adds. */
  lemma NoticeIff(t: Tree, wanted: bool, chatBusy: bool, otherRun: bool, notice: MessageId)
    requires notice !in t.messages
    ensures var u := PublishNotice(t, wanted, chatBusy, otherRun, notice);
      var fits := (
        && wanted && !t.recycled && !chatBusy && !otherRun
        && t.leaf.Some? && t.leaf.value in t.messages && !t.messages[t.leaf.value].deleted
        && forall m <- t.messages :: !(!t.messages[m].deleted && t.messages[m].unfinished));
      && (!fits ==> u == t)
      && (fits ==>
            && u.messages == t.messages[notice := Message(t.leaf, false, false, false)]
            && u.leaf == Some(notice) && u.messageCount == t.messageCount + 1 && u.recycled == t.recycled)
  {
  }

  /** Hiding changes nothing when the message or the leaf to restore is gone; otherwise, what it does to each message, leaf and count. */
  lemma HiddenMessages(t: Tree, a: MessageId, restore: MessageId, p: MessageId)
    ensures var u := Hide(t, a, restore, p);
      var there := a in t.messages && !t.messages[a].deleted && restore in t.messages && !t.messages[restore].deleted;
      && (!there ==> u == t)
      && (there ==>
            && u.messages.Keys == t.messages.Keys && u.recycled == t.recycled
            && (forall m <- t.messages ::
                  var before := t.messages[m];
                  u.messages[m] == Message(
                    if !before.deleted && before.parent == Some(a) then Some(p) else before.parent,
                    before.internal || m == a, before.deleted, before.unfinished))
            && u.messageCount == t.messageCount - (if t.recycled then 0 else 1)
            && u.leaf == (if !t.recycled && t.leaf == Some(a) then Some(restore) else t.leaf))
  {
  }

  /** The same for cleaning up one answer: its children go below its own parent, if it has one, and so does the leaf. */
  lemma CleanedMessages(t: Tree, a: MessageId)
    ensures var u := CleanUp(t, a);
      var there := a in t.messages && !t.messages[a].deleted;
      && (!there ==> u == t)
      && (there ==>
            var parent := t.messages[a].parent;
            && u.messages.Keys == t.messages.Keys && u.recycled == t.recycled
            && (forall m <- t.messages ::
                  var before := t.messages[m];
                  u.messages[m] == Message(
                    if parent.Some? && !before.deleted && before.parent == Some(a) then parent else before.parent,
                    before.internal || m == a, before.deleted, before.unfinished && m != a))
            && u.messageCount == t.messageCount - (if t.messages[a].internal then 0 else 1)
            && u.leaf == (if parent.Some? && t.leaf == Some(a) then parent else t.leaf))
  {
  }

  // ---------------------------------------------------------------- hiding and the branch

  lemma HideSplices(t: Tree, a: MessageId, restore: MessageId, p: MessageId)
    requires IsLive(t, a) && IsLive(t, restore)
    ensures ParentsIn(Hide(t, a, restore, p)) == Spliced(ParentsIn(t), a, p)
  {
  }

  /**
   Hiding and branch selection. The tree stays acyclic if and only if the remembered parent does not hang below the hidden message;
   and when that parent is still the message's own, the branch of the leaf the conversation ends up with is that leaf's old branch
   with exactly the hidden message removed.
   */
  lemma HideKeepsBranch(t: Tree, a: MessageId, restore: MessageId, p: MessageId)
    requires Acyclic(ParentsIn(t)) && HasBranch(t)
    requires IsLive(t, a) && IsLive(t, restore) && restore != a
    ensures var u := Hide(t, a, restore, p);
      && HasBranch(u)
      && (Acyclic(ParentsIn(u)) <==> MayAdopt(ParentsIn(t), a, p))
      && (t.leaf == Some(a) && !t.recycled ==> u.leaf == Some(restore))
      && (t.leaf != Some(a) || t.recycled ==> u.leaf == t.leaf)
      && (FitsParent(ParentsIn(t), a, p) && u.leaf != Some(a) ==> CurrentBranch(u) == Without(Branch(ParentsIn(t), u.leaf.value), a))
  {
    hide Acyclic, Branch, Without, FitsParent;
    var u := Hide(t, a, restore, p);
    HideSplices(t, a, restore, p);
    SpliceKeepsAcyclicIff(ParentsIn(t), a, p);
    if FitsParent(ParentsIn(t), a, p) && u.leaf != Some(a) {
      SpliceCommutesWithSelection(ParentsIn(t), a, p, u.leaf.value);
    }
  }

  /**
   What hiding makes of the current branch, whichever parent was remembered. If the conversation stays at the message, or its leaf does
   not hang below the message, nothing. Otherwise it is the branch of the remembered parent, followed by what came after the message;
   and that is the old branch without the message if and only if the remembered parent fits.
   */
  lemma HideMovesBranch(t: Tree, a: MessageId, restore: MessageId, p: MessageId)
    requires Acyclic(ParentsIn(t)) && HasBranch(t)
    requires IsLive(t, a) && IsLive(t, restore) && IsLive(t, p) && restore != a && a !in Branch(ParentsIn(t), p)
    ensures var u := Hide(t, a, restore, p);
      && Acyclic(ParentsIn(u)) && HasBranch(u) && u.leaf.value in ParentsIn(t)
      && u.leaf == (if t.leaf == Some(a) && !t.recycled then Some(restore) else t.leaf)
      && var b := Branch(ParentsIn(t), u.leaf.value);
         && (a !in b || u.leaf == Some(a) ==> CurrentBranch(u) == b)
         && (forall i :: 0 <= i < |b| && b[i] == a && u.leaf != Some(a) ==>
               CurrentBranch(u) == Branch(ParentsIn(t), p) + b[i + 1..])
         && (a in b && u.leaf != Some(a) ==> (CurrentBranch(u) == Without(b, a) <==> FitsParent(ParentsIn(t), a, p)))
  {
    hide Acyclic, Branch, Without, FitsParent;
    var u := Hide(t, a, restore, p);
    HideKeepsBranch(t, a, restore, p);
    HideSplices(t, a, restore, p);
    hide Hide;
    SplicedBranch(ParentsIn(t), a, p, u.leaf.value);
    if a in Branch(ParentsIn(t), u.leaf.value) && u.leaf != Some(a) {
      SplicedBranchIsExactIff(ParentsIn(t), a, p, u.leaf.value);
    }
  }

  /**
   When the remembered parent is stale, because that parent was itself hidden meanwhile, hiding is not exact:
   a branch below the message becomes its old path minus the message if and only if the remembered parent fits.
   */
  lemma HideIsExactIff(t: Tree, a: MessageId, restore: MessageId, p: MessageId, leaf: MessageId, path: seq<MessageId>)
    requires IsLive(t, a) && IsLive(t, restore) && leaf != a
    requires IsRootPath(ParentsIn(t), leaf, path) && a in path
    ensures IsRootPath(ParentsIn(Hide(t, a, restore, p)), leaf, Without(path, a)) <==> FitsParent(ParentsIn(t), a, p)
  {
    HideSplices(t, a, restore, p);
    SpliceRemovesExactly(ParentsIn(t), a, p, leaf, path);
  }

  lemma AddedLeafExtendsPath(parents: Parents, after: Parents, leaf: MessageId, path: seq<MessageId>, added: MessageId)
    requires IsRootPath(parents, leaf, path) && added !in parents
    requires added in after && after[added] == Some(leaf)
    requires forall x :: x in parents ==> x in after && after[x] == parents[x]
    requires IsRoot(after, path[0])
    ensures IsRootPath(after, added, path + [added])
  {
  }

  /** No live message names a parent that does not exist. */
  predicate Closed(parents: Parents) {
    forall x :: x in parents && parents[x].Some? ==> parents[x].value in parents
  }

  /** A prepared run shows up as one more message at the end of the branch; its instruction stays off the branch. */
  lemma PrepareExtendsBranch(t: Tree, user: MessageId, assistant: MessageId)
    requires Acyclic(ParentsIn(t)) && Closed(ParentsIn(t)) && PrepareAnswer(t, true, false, false).Ready?
    requires user !in t.messages && assistant !in t.messages && user != assistant
    ensures var u := Prepare(t, true, false, false, user, assistant);
      HasBranch(u) && CurrentBranch(u) == CurrentBranch(t) + [assistant] && user !in CurrentBranch(u)
  {
    hide Acyclic, Branch;
    var u := Prepare(t, true, false, false, user, assistant);
    var path := RootPathOf(ParentsIn(t), t.leaf.value);
    SelectionIsRootPath(ParentsIn(t), t.leaf.value, path);
    AddedLeafExtendsPath(ParentsIn(t), ParentsIn(u), t.leaf.value, path, assistant);
    SelectionIsRootPath(ParentsIn(u), assistant, path + [assistant]);
  }

  lemma PathKeptByExtension(parents: Parents, after: Parents, leaf: MessageId, path: seq<MessageId>)
    requires IsRootPath(parents, leaf, path) && Closed(parents)
    requires forall x :: x in parents ==> x in after && after[x] == parents[x]
    ensures IsRootPath(after, leaf, path)
  {
  }

  /** Hiding an answer nothing hangs below changes the parents of no other message. */
  lemma HiddenAnswerIsAlone(t: Tree, user: MessageId, assistant: MessageId)
    requires Closed(ParentsIn(t)) && PrepareAnswer(t, true, false, false).Ready?
    requires user !in t.messages && assistant !in t.messages && user != assistant
    ensures var u := Hide(Prepare(t, true, false, false, user, assistant), assistant, t.leaf.value, t.leaf.value);
      forall x :: x in ParentsIn(t) ==> x in ParentsIn(u) && ParentsIn(u)[x] == ParentsIn(t)[x]
  {
    var v := Prepare(t, true, false, false, user, assistant);
    HideSplices(v, assistant, t.leaf.value, t.leaf.value);
    forall x | x in ParentsIn(t) ensures ParentsIn(v)[x] == ParentsIn(t)[x] && ParentsIn(t)[x] != Some(assistant) {
    }
  }

  /** A silent run leaves no trace in what the user sees: preparing it and hiding its answer restores branch, leaf and count. */
  lemma HideUndoesPrepare(t: Tree, user: MessageId, assistant: MessageId)
    requires Acyclic(ParentsIn(t)) && Closed(ParentsIn(t)) && PrepareAnswer(t, true, false, false).Ready?
    requires user !in t.messages && assistant !in t.messages && user != assistant
    ensures var parent := t.leaf.value;
      var u := Hide(Prepare(t, true, false, false, user, assistant), assistant, parent, parent);
      && u.leaf == t.leaf && u.messageCount == t.messageCount && Counted(u) == Counted(t)
      && HasBranch(u) && CurrentBranch(u) == CurrentBranch(t)
  {
    hide Acyclic, Closed, Branch;
    var parent := t.leaf.value;
    var u := Hide(Prepare(t, true, false, false, user, assistant), assistant, parent, parent);
    assert Counted(u) == Counted(t);
    HiddenAnswerIsAlone(t, user, assistant);
    SameBranch(ParentsIn(t), ParentsIn(u), parent);
  }

  lemma SameBranch(parents: Parents, after: Parents, leaf: MessageId)
    requires Acyclic(parents) && Closed(parents) && leaf in parents
    requires forall x :: x in parents ==> x in after && after[x] == parents[x]
    ensures Branch(after, leaf) == Branch(parents, leaf)
  {
    hide Acyclic, Branch;
    var path := RootPathOf(parents, leaf);
    SelectionIsRootPath(parents, leaf, path);
    PathKeptByExtension(parents, after, leaf, path);
    SelectionIsRootPath(after, leaf, path);
  }

  // ---------------------------------------------------------------- clean-up and the branch

  function WithoutAll(b: seq<MessageId>, gone: set<MessageId>): seq<MessageId> {
    if b == [] then [] else (if b[0] in gone then [] else [b[0]]) + WithoutAll(b[1..], gone)
  }

  lemma {:induction false} WithoutOneMore(b: seq<MessageId>, gone: set<MessageId>, a: MessageId)
    ensures Without(WithoutAll(b, gone), a) == WithoutAll(b, gone + {a})
  {
    if b != [] {
      WithoutOneMore(b[1..], gone, a);
      var rest := WithoutAll(b[1..], gone);
      if b[0] in gone {
        assert WithoutAll(b, gone) == rest;
      } else {
        assert ([b[0]] + rest)[1..] == rest;
      }
    }
  }

  lemma {:induction false} WithoutNone(b: seq<MessageId>)
    ensures WithoutAll(b, {}) == b
  {
    if b != [] {
      WithoutNone(b[1..]);
    }
  }

  lemma {:induction false} WithoutTwice(b: seq<MessageId>, a: MessageId)
    ensures a !in Without(b, a) && Without(Without(b, a), a) == Without(b, a)
  {
    if b != [] {
      WithoutTwice(b[1..], a);
    }
    WithoutAbsent(Without(b, a), a);
  }

  /** The answers that clean-up takes out of the tree: live ones that have a parent. */
  function Removed(t: Tree, answers: seq<MessageId>): set<MessageId> {
    set a | a in answers && IsLive(t, a) && t.messages[a].parent.Some?
  }

  ghost predicate Sound(t: Tree) {
    Acyclic(ParentsIn(t)) && Closed(ParentsIn(t)) && HasBranch(t)
  }

  /** The live messages, and which of them have a parent, are the same. */
  ghost predicate SameRoots(t: Tree, u: Tree) {
    forall x :: (IsLive(u, x) <==> IsLive(t, x)) && (IsLive(u, x) ==> (u.messages[x].parent.Some? <==> t.messages[x].parent.Some?))
  }

  lemma CleanUpSplices(t: Tree, a: MessageId)
    requires IsLive(t, a)
    ensures ParentsIn(CleanUp(t, a)) ==
      (if t.messages[a].parent.Some? then Spliced(ParentsIn(t), a, t.messages[a].parent.value) else ParentsIn(t))
  {
  }

  lemma CleanUpMovesLeaf(t: Tree, a: MessageId)
    requires IsLive(t, a)
    ensures var u := CleanUp(t, a);
      && SameRoots(t, u)
      && u.leaf == (if t.messages[a].parent.Some? && t.leaf == Some(a) then t.messages[a].parent else t.leaf)
  {
  }

  /** The branch after splicing a below its own parent, seen from the leaf the conversation moves to. */
  lemma SpliceAndMoveLeaf(parents: Parents, a: MessageId, p: MessageId, leaf: MessageId)
    requires Acyclic(parents) && Closed(parents) && a in parents && parents[a] == Some(p) && leaf in parents
    ensures Acyclic(Spliced(parents, a, p)) && Closed(Spliced(parents, a, p)) && p in parents
    ensures Branch(Spliced(parents, a, p), if leaf == a then p else leaf) == Without(Branch(parents, leaf), a)
  {
    hide Acyclic, Branch, Without;
    OwnParentMayAdopt(parents, a, p);
    SpliceKeepsAcyclicIff(parents, a, p);
    NoSelfParent(parents, a, p);
    if leaf == a {
      SpliceCommutesWithSelection(parents, a, p, p);
      ParentBranch(parents, a, p);
      WithoutTwice(Branch(parents, a), a);
    } else {
      SpliceCommutesWithSelection(parents, a, p, leaf);
    }
  }

  lemma CleanUpOne(t: Tree, a: MessageId)
    requires Sound(t)
    ensures var u := CleanUp(t, a);
      && Sound(u) && SameRoots(t, u)
      && CurrentBranch(u) == (if IsLive(t, a) && t.messages[a].parent.Some? then Without(CurrentBranch(t), a) else CurrentBranch(t))
  {
    hide Acyclic, Closed, Branch, Without, CleanUp;
    if IsLive(t, a) {
      CleanUpSplices(t, a);
      CleanUpMovesLeaf(t, a);
      if t.messages[a].parent.Some? {
        SpliceAndMoveLeaf(ParentsIn(t), a, t.messages[a].parent.value, t.leaf.value);
      }
    } else {
      CleanUpOfNothing(t, a);
    }
  }

  lemma CleanUpOfNothing(t: Tree, a: MessageId)
    requires !IsLive(t, a)
    ensures CleanUp(t, a) == t
  {
  }

  lemma NoSelfParent(parents: Parents, a: MessageId, p: MessageId)
    requires Acyclic(parents) && a in parents && parents[a] == Some(p) && p in parents
    ensures p != a
  {
    hide Acyclic;
    var path := RootPathOf(parents, a);
    SelectionIsRootPath(parents, a, path);
    assert |path| > 1 && path[|path| - 2] == p;
  }

  /** Deleting a conversation hides every stopped answer: the branch loses exactly those that hang below another message. */
  lemma {:induction false} CleanUpKeepsBranch(t: Tree, answers: seq<MessageId>)
    requires Sound(t)
    ensures var u := CleanUpAll(t, answers);
      Sound(u) && SameRoots(t, u) && CurrentBranch(u) == WithoutAll(CurrentBranch(t), Removed(t, answers))
    decreases |answers|
  {
    hide CleanUp, Acyclic, Closed, Branch, Without, WithoutAll;
    if answers == [] {
      WithoutNone(CurrentBranch(t));
      assert Removed(t, answers) == {};
    } else {
      var front, a := answers[..|answers| - 1], answers[|answers| - 1];
      CleanUpKeepsBranch(t, front);
      var v := CleanUpAll(t, front);
      CleanUpOne(v, a);
      WithoutOneMore(CurrentBranch(t), Removed(t, front), a);
      if IsLive(t, a) && t.messages[a].parent.Some? {
        assert Removed(t, answers) == Removed(t, front) + {a};
      } else {
        assert Removed(t, answers) == Removed(t, front);
      }
    }
  }

  // ---------------------------------------------------------------- message count

  /** What the stored count is off by. */
  function Surplus(t: Tree): int {
    t.messageCount - |Counted(t)|
  }

  lemma PrepareKeepsCount(t: Tree, runIsOurs: bool, chatBusy: bool, otherRun: bool, user: MessageId, assistant: MessageId)
    requires user !in t.messages && assistant !in t.messages && user != assistant
    ensures Surplus(Prepare(t, runIsOurs, chatBusy, otherRun, user, assistant)) == Surplus(t)
  {
    var u := Prepare(t, runIsOurs, chatBusy, otherRun, user, assistant);
    if PrepareAnswer(t, runIsOurs, chatBusy, otherRun).Ready? {
      assert Counted(u) == Counted(t) + {assistant};
    }
  }

  lemma NoticeKeepsCount(t: Tree, wanted: bool, chatBusy: bool, otherRun: bool, notice: MessageId)
    requires notice !in t.messages
    ensures Surplus(PublishNotice(t, wanted, chatBusy, otherRun, notice)) == Surplus(t)
  {
    var u := PublishNotice(t, wanted, chatBusy, otherRun, notice);
    if u != t {
      assert Counted(u) == Counted(t) + {notice};
    }
  }

  lemma CountedSplits(counted: set<MessageId>, a: MessageId)
    ensures |counted - {a}| == |counted| - (if a in counted then 1 else 0)
  {
    if a in counted {
      assert counted == (counted - {a}) + {a};
    } else {
      assert counted - {a} == counted;
    }
  }

  lemma HideUncounts(t: Tree, a: MessageId, restore: MessageId, p: MessageId)
    requires IsLive(t, a) && IsLive(t, restore)
    ensures Counted(Hide(t, a, restore, p)) == Counted(t) - {a}
  {
    var u := Hide(t, a, restore, p);
    forall id ensures id in Counted(u) <==> id in Counted(t) - {a} {
      assert id in t.messages && id != a ==>
        id in u.messages && u.messages[id].deleted == t.messages[id].deleted && u.messages[id].internal == t.messages[id].internal;
    }
  }

  lemma HideDecrements(t: Tree, a: MessageId, restore: MessageId, p: MessageId)
    requires IsLive(t, a) && IsLive(t, restore)
    ensures Hide(t, a, restore, p).messageCount == t.messageCount - (if t.recycled then 0 else 1)
  {
    hide Reparent;
  }

  /** By how much hiding changes the surplus. */
  lemma HideChangesSurplus(t: Tree, a: MessageId, restore: MessageId, p: MessageId)
    requires IsLive(t, a) && IsLive(t, restore)
    ensures Surplus(Hide(t, a, restore, p)) - Surplus(t) == (if t.messages[a].internal then 0 else 1) - (if t.recycled then 0 else 1)
  {
    hide Hide, Counted;
    HideUncounts(t, a, restore, p);
    HideDecrements(t, a, restore, p);
    CountedSplits(Counted(t), a);
    CountedIff(t, a);
  }

  lemma CountedIff(t: Tree, a: MessageId)
    ensures a in Counted(t) <==> IsLive(t, a) && !t.messages[a].internal
  {
  }

  /** Hiding keeps the count right exactly when the message was counted and the conversation is not in the recycle bin, or neither. */
  lemma HideKeepsCountIff(t: Tree, a: MessageId, restore: MessageId, p: MessageId)
    requires IsLive(t, a) && IsLive(t, restore)
    ensures Surplus(Hide(t, a, restore, p)) == Surplus(t) <==> t.recycled == t.messages[a].internal
  {
    hide Hide, Surplus;
    HideChangesSurplus(t, a, restore, p);
  }

  lemma CleanUpUncounts(t: Tree, a: MessageId)
    requires IsLive(t, a)
    ensures Counted(CleanUp(t, a)) == Counted(t) - {a}
    ensures CleanUp(t, a).messageCount == t.messageCount - (if t.messages[a].internal then 0 else 1)
  {
    var u := CleanUp(t, a);
    forall id ensures id in Counted(u) <==> id in Counted(t) - {a} {
      assert id in t.messages && id != a ==>
        id in u.messages && u.messages[id].deleted == t.messages[id].deleted && u.messages[id].internal == t.messages[id].internal;
    }
  }

  lemma CleanUpKeepsCount(t: Tree, a: MessageId)
    ensures Surplus(CleanUp(t, a)) == Surplus(t)
  {
    hide CleanUp, Counted;
    if IsLive(t, a) {
      CleanUpUncounts(t, a);
      CountedIff(t, a);
      CountedSplits(Counted(t), a);
    } else {
      CleanUpOfNothing(t, a);
    }
  }

  lemma {:induction false} CleanUpAllKeepsCount(t: Tree, answers: seq<MessageId>)
    ensures Surplus(CleanUpAll(t, answers)) == Surplus(t)
    decreases |answers|
  {
    hide CleanUp, Surplus;
    if answers != [] {
      CleanUpAllKeepsCount(t, answers[..|answers| - 1]);
      CleanUpKeepsCount(CleanUpAll(t, answers[..|answers| - 1]), answers[|answers| - 1]);
    }
  }
}
