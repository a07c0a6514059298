/**
 The `deleteConvo` action of the `useDeleteConversation` hook: one guarded,
 gateway-conditional update of six application stores (the conversation list,
 the per-conversation message map, the active-conversation id, the prompt text
 and two panel-visibility flags).

 The stores are plain fields of `AppStores`; the plugin service's
 DELETE_CONVERSATION call is an outcome passed in; the values the hook read when
 it rendered are a `Hook` value passed in. `AfterDelete` is the pure
 specification of the action and `Effects` the ordered list of calls it makes.
 */
module DeleteConversation {
  import opened Wrappers

  type ConvoId = string

  /** A conversation of the user's list. The deletion only reads `id`;
      `summary` stands for the other fields, which it carries unchanged. */
  datatype Conversation = Conversation(id: ConvoId, summary: string)

  /** A cached chat message; its content is never inspected here. */
  datatype ChatMessage = ChatMessage(text: string)

  type MessageMap = map<ConvoId, seq<ChatMessage>>

  /** How the awaited DELETE_CONVERSATION call settled. */
  datatype GatewayOutcome = Resolved | Rejected(error: string)

  /** One observable step of `deleteConvo`, in the order it happens. */
  datatype Effect =
    | GatewayDelete(id: ConvoId)
    | SetUserConversations
    | DeleteMessages(id: ConvoId)
    | SetActiveConvoId
    | SetCurrentPrompt
    | SetShowingProductDetail
    | SetShowingAdvancedPrompt
    | ConsoleError(error: string)

  /** The six stores the action touches, as one value. */
  datatype Stores = Stores(
    userConversations: seq<Conversation>,
    messages: MessageMap,
    activeConvoId: Option<ConvoId>,
    currentPrompt: string,
    showingProductDetail: bool,
    showingAdvancedPrompt: bool)

  /** The values the hook read from its atoms when it last rendered; the
      `deleteConvo` closure uses these, not the stores' values at the time
      the gateway call returns. */
  datatype Hook = Hook(userConversations: seq<Conversation>, activeConvoId: Option<ConvoId>)

  /** JavaScript truthiness of an id of type `string | undefined`:
      `undefined` and the empty string are falsy. */
  predicate IsTruthy(id: Option<ConvoId>)
  {
    id.Some? && id.value != ""
  }

  /** The ids present in a conversation list. */
  function Ids(convos: seq<Conversation>): (ids: set<ConvoId>)
    ensures forall c :: c in convos ==> c.id in ids
    ensures forall id :: id in ids ==> exists c :: c in convos && c.id == id
  {
    set c | c in convos :: c.id
  }

  /** `convos.filter((c) => c.id !== id)`: every entry with that id is dropped,
      every other entry is kept, as often as it occurred. */
  function RemoveById(convos: seq<Conversation>, id: ConvoId): (r: seq<Conversation>)
    ensures |r| <= |convos|
    ensures forall c :: c in r <==> c in convos && c.id != id
  {
    if convos == [] then []
    else if convos[0].id != id then [convos[0]] + RemoveById(convos[1..], id)
    else RemoveById(convos[1..], id)
  }

  /** `sub` is `s` with some entries left out and the rest in their order:
      each entry of `s` is either skipped or taken as the next entry of `sub`. */
  ghost predicate IsSubsequence<T>(sub: seq<T>, s: seq<T>)
    decreases |s|
  {
    if s == [] then sub == []
    else IsSubsequence(sub, s[1..]) || (sub != [] && sub[0] == s[0] && IsSubsequence(sub[1..], s[1..]))
  }

  /** The filter keeps the remaining conversations in their relative order. */
  lemma {:induction false} RemoveByIdIsSubsequence(convos: seq<Conversation>, id: ConvoId)
    ensures IsSubsequence(RemoveById(convos, id), convos)
    decreases |convos|
  {
    if convos != [] {
      RemoveByIdIsSubsequence(convos[1..], id);
      var r := RemoveById(convos, id);
      if convos[0].id != id {
        assert r[0] == convos[0] && r[1..] == RemoveById(convos[1..], id);
      }
    }
  }

  /** The filter keeps each other conversation as often as it occurred and
      drops every occurrence of the deleted id. */
  lemma {:induction false} RemoveByIdCounts(convos: seq<Conversation>, id: ConvoId, c: Conversation)
    ensures multiset(RemoveById(convos, id))[c] == if c.id == id then 0 else multiset(convos)[c]
    decreases |convos|
  {
    if convos != [] {
      RemoveByIdCounts(convos[1..], id, c);
      assert convos == [convos[0]] + convos[1..];
    }
  }

  /** Filtering distributes over concatenation: the order of what is kept
      follows the order of the input, block by block. */
  lemma {:induction false} RemoveByIdAppend(a: seq<Conversation>, b: seq<Conversation>, id: ConvoId)
    ensures RemoveById(a + b, id) == RemoveById(a, id) + RemoveById(b, id)
    decreases |a|
  {
    if a == [] {
      assert a + b == b;
    } else {
      assert (a + b)[0] == a[0];
      assert (a + b)[1..] == a[1..] + b;
      RemoveByIdAppend(a[1..], b, id);
      if a[0].id != id {
        assert RemoveById(a + b, id) == [a[0]] + (RemoveById(a[1..], id) + RemoveById(b, id));
      }
    }
  }

  /** A list that holds no entry with the id comes out of the filter unchanged. */
  lemma {:induction false} RemoveByIdAbsent(convos: seq<Conversation>, id: ConvoId)
    requires id !in Ids(convos)
    ensures RemoveById(convos, id) == convos
    decreases |convos|
  {
    if convos != [] {
      assert convos[0] in convos;
      assert Ids(convos[1..]) <= Ids(convos) by {
        forall c | c in convos[1..] ensures c in convos { }
      }
      RemoveByIdAbsent(convos[1..], id);
    }
  }

  /** Filtering twice by the same id is filtering once. */
  lemma RemoveByIdIdempotent(convos: seq<Conversation>, id: ConvoId)
    ensures RemoveById(RemoveById(convos, id), id) == RemoveById(convos, id)
  {
    RemoveByIdAbsent(RemoveById(convos, id), id);
  }

  /** The ids left after the filter are exactly the old ids but the deleted one. */
  lemma IdsAfterRemove(convos: seq<Conversation>, id: ConvoId)
    ensures Ids(RemoveById(convos, id)) == Ids(convos) - {id}
  {
    var r := RemoveById(convos, id);
    forall x | x in Ids(convos) - {id} ensures x in Ids(r) {
      var c :| c in convos && c.id == x;
      assert c in r;
    }
  }

  /** `deleteConversationMessage(id)`: the message map without that id's key;
      every other conversation's messages are untouched. */
  function DeleteConversationMessages(messages: MessageMap, id: ConvoId): (r: MessageMap)
    ensures r.Keys == messages.Keys - {id}
    ensures forall k :: k in r ==> r[k] == messages[k]
  {
    messages - {id}
  }

  /** If the active id is set, it names a conversation of the list. */
  ghost predicate PointerValid(s: Stores)
  {
    s.activeConvoId.Some? ==> s.activeConvoId.value in Ids(s.userConversations)
  }

  /** No cached messages belong to a conversation absent from the list. */
  ghost predicate NoOrphanedMessages(s: Stores)
  {
    s.messages.Keys <= Ids(s.userConversations)
  }

  ghost predicate Consistent(s: Stores)
  {
    PointerValid(s) && NoOrphanedMessages(s)
  }

  /** The hook as rendered from the current stores. */
  function Render(s: Stores): (hook: Hook)
  {
    Hook(s.userConversations, s.activeConvoId)
  }

  /** The stores after `deleteConvo` ran with the hook's captured values and the
      gateway settled with `outcome`. */
  function AfterDelete(s: Stores, hook: Hook, outcome: GatewayOutcome): (r: Stores)
  {
    if !IsTruthy(hook.activeConvoId) then s
    else
      var id := hook.activeConvoId.value;
      match outcome
      case Rejected(_) => s
      case Resolved =>
        Stores(RemoveById(hook.userConversations, id), DeleteConversationMessages(s.messages, id),
               None, "", false, false)
  }

  /** The calls `deleteConvo` makes, in order. */
  function Effects(hook: Hook, outcome: GatewayOutcome): (t: seq<Effect>)
  {
    if !IsTruthy(hook.activeConvoId) then []
    else
      var id := hook.activeConvoId.value;
      match outcome
      case Rejected(err) => [GatewayDelete(id), ConsoleError(err)]
      case Resolved =>
        [GatewayDelete(id), SetUserConversations, DeleteMessages(id), SetActiveConvoId,
         SetCurrentPrompt, SetShowingProductDetail, SetShowingAdvancedPrompt]
  }

  predicate IsStoreWrite(e: Effect)
  {
    !e.GatewayDelete? && !e.ConsoleError?
  }

  /** A falsy active id (`undefined` or "") means no gateway call and no store
      change. */
  lemma NoTargetIsNoOp(s: Stores, hook: Hook, outcome: GatewayOutcome)
    requires !IsTruthy(hook.activeConvoId)
    ensures AfterDelete(s, hook, outcome) == s
    ensures Effects(hook, outcome) == []
  {
  }

  /** With a truthy active id the gateway is called exactly once, with that id,
      as the very first effect, so before any store is written; and a store is
      written only when the call resolved. */
  lemma GatewayCalledOnceFirst(hook: Hook, outcome: GatewayOutcome)
    requires IsTruthy(hook.activeConvoId)
    ensures var t := Effects(hook, outcome);
      && t != [] && t[0] == GatewayDelete(hook.activeConvoId.value)
      && (forall i :: 0 < i < |t| ==> !t[i].GatewayDelete?)
      && ((exists i :: 0 <= i < |t| && IsStoreWrite(t[i])) <==> outcome.Resolved?)
  {
    var t := Effects(hook, outcome);
    if outcome.Resolved? {
      assert IsStoreWrite(t[1]);
    }
  }

  /** A rejected gateway call leaves all six stores as they were; the error is
      only logged. */
  lemma FailureChangesNothing(s: Stores, hook: Hook, err: string)
    ensures AfterDelete(s, hook, Rejected(err)) == s
    ensures IsTruthy(hook.activeConvoId) ==> ConsoleError(err) in Effects(hook, Rejected(err))
    ensures forall e :: e in Effects(hook, Rejected(err)) ==> !IsStoreWrite(e)
  {
  }

  /** A resolved deletion: the conversation is gone from the list and the
      message map, every other conversation and every other message entry is
      kept, the active id is `undefined`, the prompt is "" and both panels are
      hidden. */
  lemma SuccessPostState(s: Stores, hook: Hook)
    requires IsTruthy(hook.activeConvoId)
    ensures var id := hook.activeConvoId.value;
      var r := AfterDelete(s, hook, Resolved);
      && id !in Ids(r.userConversations)
      && Ids(r.userConversations) == Ids(hook.userConversations) - {id}
      && IsSubsequence(r.userConversations, hook.userConversations)
      && id !in r.messages
      && (forall k :: k in s.messages && k != id ==> k in r.messages && r.messages[k] == s.messages[k])
      && r.activeConvoId == None && PointerValid(r)
      && r.currentPrompt == "" && !r.showingProductDetail && !r.showingAdvancedPrompt
  {
    var id := hook.activeConvoId.value;
    IdsAfterRemove(hook.userConversations, id);
    RemoveByIdIsSubsequence(hook.userConversations, id);
  }

  /** When the list the hook captured is still the current list, a consistent
      state stays consistent whatever the gateway answers: the pointer stays
      valid and no messages are orphaned. The captured active id need not be
      the current one, since a resolved delete clears the pointer anyway. */
  lemma DeletePreservesConsistency(s: Stores, hook: Hook, outcome: GatewayOutcome)
    requires Consistent(s) && hook.userConversations == s.userConversations
    ensures Consistent(AfterDelete(s, hook, outcome))
  {
    if IsTruthy(hook.activeConvoId) && outcome.Resolved? {
      IdsAfterRemove(s.userConversations, hook.activeConvoId.value);
    }
  }

  /** A resolved delete leaves the stores consistent exactly when every cached
      conversation other than the deleted one is in the list the hook captured. */
  lemma ResolvedConsistentIff(s: Stores, hook: Hook)
    requires IsTruthy(hook.activeConvoId)
    ensures Consistent(AfterDelete(s, hook, Resolved))
        <==> s.messages.Keys - {hook.activeConvoId.value} <= Ids(hook.userConversations)
  {
    IdsAfterRemove(hook.userConversations, hook.activeConvoId.value);
  }

  /** The filter runs over the list the hook captured at render time: a
      conversation removed from the store after that render is back in the
      list after a successful delete. */
  lemma StaleListRestoresRemovedConversation()
    ensures var c1 := Conversation("c1", "");
      var c3 := Conversation("c3", "");
      var s := Stores([c1], map[], Some("c1"), "", false, false);
      AfterDelete(s, Hook([c1, c3], Some("c1")), Resolved).userConversations == [c3]
  {
    var c1 := Conversation("c1", "");
    var c3 := Conversation("c3", "");
    assert [c1, c3][1..] == [c3];
    assert [c3][1..] == [];
    assert RemoveById([c3], "c1") == [c3];
  }

  /** The filter runs over the list the hook captured at render time: a
      conversation added to the store after that render is dropped by a
      successful delete, and its messages are then orphaned. */
  lemma StaleListOrphansMessages()
    ensures var c1 := Conversation("c1", "");
      var c2 := Conversation("c2", "");
      var s := Stores([c1, c2], map["c2" := []], Some("c1"), "", false, false);
      var r := AfterDelete(s, Hook([c1], Some("c1")), Resolved);
      Consistent(s) && r.userConversations == [] && !NoOrphanedMessages(r)
  {
    var c1 := Conversation("c1", "");
    var c2 := Conversation("c2", "");
    assert Ids([c1, c2]) == {"c1", "c2"} by {
      assert c1 in [c1, c2] && c2 in [c1, c2];
    }
    assert RemoveById([c1], "c1") == [] by {
      assert [c1][1..] == [];
    }
    var s := Stores([c1, c2], map["c2" := []], Some("c1"), "", false, false);
    var r := AfterDelete(s, Hook([c1], Some("c1")), Resolved);
    assert Consistent(s);
    assert r.messages == map["c2" := []];
    assert Ids(r.userConversations) == {};
  }

  /** Scenario: conversations c1, c2 with c1 active; the gateway resolves. */
  lemma DeleteActiveOfTwo()
    ensures var c1 := Conversation("c1", "");
      var c2 := Conversation("c2", "");
      var s := Stores([c1, c2], map["c1" := [ChatMessage("hi")]], Some("c1"), "draft", true, true);
      AfterDelete(s, Render(s), Resolved) == Stores([c2], map[], None, "", false, false)
  {
    var c1 := Conversation("c1", "");
    var c2 := Conversation("c2", "");
    assert [c1, c2][1..] == [c2];
    assert [c2][1..] == [];
    assert RemoveById([c2], "c1") == [c2];
    assert RemoveById([c1, c2], "c1") == [c2];
    assert map["c1" := [ChatMessage("hi")]] - {"c1"} == map[];
    var s := Stores([c1, c2], map["c1" := [ChatMessage("hi")]], Some("c1"), "draft", true, true);
    assert IsTruthy(Render(s).activeConvoId);
  }

  /** The six atoms, as fields, and the `deleteConvo` action on them. */
  class AppStores {
    var userConversations: seq<Conversation>
    var messages: MessageMap
    var activeConvoId: Option<ConvoId>
    var currentPrompt: string
    var showingProductDetail: bool
    var showingAdvancedPrompt: bool
    /** The calls made so far: gateway requests, setter calls, console errors. */
    ghost var trace: seq<Effect>

    function Snapshot(): (s: Stores)
      reads this
    {
      Stores(userConversations, messages, activeConvoId, currentPrompt,
             showingProductDetail, showingAdvancedPrompt)
    }

    ghost predicate IsConsistent()
      reads this
    {
      Consistent(Snapshot())
    }

    constructor (initial: Stores)
      ensures Snapshot() == initial && trace == []
    {
      userConversations := initial.userConversations;
      messages := initial.messages;
      activeConvoId := initial.activeConvoId;
      currentPrompt := initial.currentPrompt;
      showingProductDetail := initial.showingProductDetail;
      showingAdvancedPrompt := initial.showingAdvancedPrompt;
      trace := [];
    }

    /** What `useDeleteConversation` reads from the atoms when it renders. */
    function UseDeleteConversation(): (hook: Hook)
      reads this
    {
      Render(Snapshot())
    }

    /** `deleteConvo`, run with the values `hook` captured at render and with
        the gateway settling as `outcome`. */
    method DeleteConvo(hook: Hook, outcome: GatewayOutcome)
      modifies this
      ensures Snapshot() == AfterDelete(old(Snapshot()), hook, outcome)
      ensures trace == old(trace) + Effects(hook, outcome)
      ensures !IsTruthy(hook.activeConvoId) ==> Snapshot() == old(Snapshot()) && trace == old(trace)
      ensures IsTruthy(hook.activeConvoId) && outcome.Rejected? ==>
        Snapshot() == old(Snapshot())
      ensures IsTruthy(hook.activeConvoId) && outcome.Resolved? ==>
        var id := hook.activeConvoId.value;
        && userConversations == RemoveById(hook.userConversations, id)
        && messages == DeleteConversationMessages(old(messages), id)
        && activeConvoId == None
        && currentPrompt == ""
        && !showingProductDetail && !showingAdvancedPrompt
      ensures old(IsConsistent()) && hook.userConversations == old(userConversations) ==> IsConsistent()
      ensures IsTruthy(hook.activeConvoId) && outcome.Resolved? ==>
        (IsConsistent() <==> old(messages).Keys - {hook.activeConvoId.value} <= Ids(hook.userConversations))
    {
      ghost var before := Snapshot();
      if IsTruthy(hook.activeConvoId) {
        var id := hook.activeConvoId.value;
        trace := trace + [GatewayDelete(id)];
        match outcome {
          case Resolved =>
            userConversations := RemoveById(hook.userConversations, id);
            trace := trace + [SetUserConversations];
            messages := DeleteConversationMessages(messages, id);
            trace := trace + [DeleteMessages(id)];
            activeConvoId := None;
            trace := trace + [SetActiveConvoId];
            currentPrompt := "";
            trace := trace + [SetCurrentPrompt];
            showingProductDetail := false;
            trace := trace + [SetShowingProductDetail];
            showingAdvancedPrompt := false;
            trace := trace + [SetShowingAdvancedPrompt];
            assert trace == old(trace) + Effects(hook, outcome);
          case Rejected(err) =>
            trace := trace + [ConsoleError(err)];
        }
      }
      assert Snapshot() == AfterDelete(before, hook, outcome);
      if Consistent(before) && hook.userConversations == before.userConversations {
        DeletePreservesConsistency(before, hook, outcome);
      }
      if IsTruthy(hook.activeConvoId) && outcome.Resolved? {
        ResolvedConsistentIff(before, hook);
      }
    }
  }

  /** A client of the class: a rejected delete, its retry with the same hook,
      then a delete after a re-render, when nothing is active. */
  method DeleteRetryScenario()
  {
    var c1 := Conversation("c1", "");
    var c2 := Conversation("c2", "");
    var app := new AppStores(Stores([c1, c2], map["c1" := []], Some("c1"), "draft", true, false));
    var hook := app.UseDeleteConversation();
    app.DeleteConvo(hook, Rejected("offline"));
    assert app.userConversations == [c1, c2] && app.activeConvoId == Some("c1");
    app.DeleteConvo(hook, Resolved);
    assert [c1, c2][1..] == [c2] && [c2][1..] == [];
    assert app.userConversations == [c2];
    assert app.activeConvoId == None && "c1" !in app.messages && app.currentPrompt == "";
    hook := app.UseDeleteConversation();
    app.DeleteConvo(hook, Resolved);
    assert app.userConversations == [c2];
  }
}
