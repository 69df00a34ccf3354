/**
 * The scripted console-command test driver of src/test/console/CommandTest.php.
 *
 * A test scripts the console calls it expects (an event chain), the command's
 * action runs against a controller whose `stdOut`, `stderr`, `prompt`,
 * `confirm` and `select` are replaced by handlers that consume the chain in
 * order, and `run` then checks the exit code and that every item was handled.
 *
 * One run of the action is given as the sequence of console calls it made and
 * the exit code it returned; a PHPUnit failure or a thrown exception ends the
 * run and is a `Failure` here.
 */
module ConsoleCommandTest {

  import opened Wrappers

  /** The five item types; their PHP names are given by TypeName. */
  datatype ItemType = StdOut | StdErr | Prompt | Confirm | Select

  /** The class constants `STD_OUT` … `SELECT`. */
  function TypeName(t: ItemType): string
  {
    match t
    case StdOut => "stdOut"
    case StdErr => "stderr"
    case Prompt => "prompt"
    case Confirm => "confirm"
    case Select => "select"
  }

  /** Distinct types have distinct names, so `runHandlerCheck`'s `!==` on names compares types. */
  lemma TypeNameInjective(a: ItemType, b: ItemType)
    ensures TypeName(a) == TypeName(b) <==> a == b
  {
  }

  /** The PHP values a test scripts as options and return values. */
  datatype Value = NullValue | BoolValue(b: bool) | IntValue(i: int) | StringValue(s: string) | ArrayValue(elements: seq<Value>)

  /**
   * A `CommandTestItem`. `text` is the item's `desiredOutput` (stdOut,
   * stderr), `prompt` (prompt, select) or `message` (confirm); a field an
   * item's builder does not set is null.
   */
  datatype Item = Item(itemType: ItemType, text: string, options: Value, default: bool, returnValue: Value)

  /** A call the action makes on its controller's console methods. */
  datatype Call =
    | OutCall(out: string)
    | ErrCall(out: string)
    | PromptCall(prompt: string, promptOptions: Value)
    | ConfirmCall(message: string, confirmDefault: bool)
    | SelectCall(question: string, selectOptions: Value)

  /** Why a run fails: a PHPUnit assertion or an `InvalidArgumentException`. */
  datatype Failure =
    | MissingExitCode
    | NoMoreItems(printed: string)
    | WrongType(expected: ItemType, given: ItemType)
    | NotSame
    | ExitCodeMismatch
    | UnhandledItems

  /** The handler a call reaches. */
  function CallType(call: Call): ItemType
  {
    match call
    case OutCall(_) => StdOut
    case ErrCall(_) => StdErr
    case PromptCall(_, _) => Prompt
    case ConfirmCall(_, _) => Confirm
    case SelectCall(_, _) => Select
  }

  /** The `$out` a handler passes to `runHandlerCheck`. */
  function Printed(call: Call): string
  {
    match call
    case OutCall(out) => out
    case ErrCall(out) => out
    case PromptCall(text, _) => "A prompt with value: " + text
    case ConfirmCall(message, _) => "A confirm with value: " + message
    case SelectCall(text, _) => "A select with value: " + text
  }

  /** The handler's `assertSame` checks between an item and the call it answers. */
  predicate SameFields(item: Item, call: Call)
  {
    match call
    case OutCall(out) => item.text == out
    case ErrCall(out) => item.text == out
    case PromptCall(text, options) => item.text == text && item.options == options
    case ConfirmCall(message, default) => item.text == message && item.default == default
    case SelectCall(text, options) => item.text == text && item.options == options
  }

  /** The item answers the call: same type and the same fields. */
  predicate Matches(item: Item, call: Call)
  {
    item.itemType == CallType(call) && SameFields(item, call)
  }

  /** What the handler returns to the action: the scripted value for questions, nothing for output. */
  function ReplyOf(item: Item, call: Call): Option<Value>
  {
    if call.OutCall? || call.ErrCall? then None else Some(item.returnValue)
  }

  /**
   * The test driver state while the action runs: the chain position, the handled
   * count, the replies given so far and the failure that ended the run, if any.
   */
  datatype Replay = Replay(index: nat, handled: nat, replies: seq<Option<Value>>, failure: Option<Failure>)

  /** One console call answered from the chain. */
  function Step(chain: seq<Item>, st: Replay, call: Call): Replay
  {
    if st.failure.Some? then st
    else if st.index >= |chain| then st.(failure := Some(NoMoreItems(Printed(call))))
    else
      var item := chain[st.index];
      if item.itemType != CallType(call) then
        st.(index := st.index + 1, failure := Some(WrongType(CallType(call), item.itemType)))
      else if !SameFields(item, call) then
        st.(index := st.index + 1, handled := st.handled + 1, failure := Some(NotSame))
      else
        st.(index := st.index + 1, handled := st.handled + 1, replies := st.replies + [ReplyOf(item, call)])
  }

  /** The calls answered one after the other. */
  function ReplayCalls(chain: seq<Item>, st: Replay, calls: seq<Call>): Replay
  {
    if calls == [] then st
    else Step(chain, ReplayCalls(chain, st, calls[..|calls| - 1]), calls[|calls| - 1])
  }

  /** The outcome of `run`: None when the test passes. */
  function Verdict(desired: Option<int>, chain: seq<Item>, start: Replay, calls: seq<Call>, exitCode: int): Option<Failure>
  {
    if desired.None? then Some(MissingExitCode)
    else
      var end := ReplayCalls(chain, start, calls);
      if end.failure.Some? then end.failure
      else if desired.value != exitCode then Some(ExitCodeMismatch)
      else if end.handled != |chain| then Some(UnhandledItems)
      else None
  }

  /**
   * From a fresh chain position, the calls are answered without failure
   * exactly when each of them matches the item at its own position; the
   * answered calls then consume and handle one item each, and each reply is
   * the scripted one.
   */
  lemma {:induction false} ReplayFromStart(chain: seq<Item>, calls: seq<Call>)
    ensures var end := ReplayCalls(chain, Replay(0, 0, [], None), calls);
      && (end.failure.None? <==>
            |calls| <= |chain| && forall i :: 0 <= i < |calls| ==> Matches(chain[i], calls[i]))
      && (end.failure.None? ==>
            end.index == |calls| && end.handled == |calls| && |end.replies| == |calls|
            && forall i :: 0 <= i < |calls| ==> end.replies[i] == ReplyOf(chain[i], calls[i]))
    decreases |calls|
  {
    if calls != [] {
      var init := calls[..|calls| - 1];
      var last := calls[|calls| - 1];
      ReplayFromStart(chain, init);
      var prev := ReplayCalls(chain, Replay(0, 0, [], None), init);
      var end := ReplayCalls(chain, Replay(0, 0, [], None), calls);
      assert end == Step(chain, prev, last);
      assert forall i :: 0 <= i < |init| ==> init[i] == calls[i];
      if prev.failure.None? {
        if end.failure.None? {
          assert Matches(chain[|init|], last);
          assert forall i :: 0 <= i < |calls| ==> Matches(chain[i], calls[i]) by {
            forall i | 0 <= i < |calls|
              ensures Matches(chain[i], calls[i])
            {
              if i < |init| {
                assert Matches(chain[i], init[i]);
              }
            }
          }
          assert end.replies == prev.replies + [ReplyOf(chain[|init|], last)];
        } else if |calls| <= |chain| {
          assert !Matches(chain[|calls| - 1], calls[|calls| - 1]);
        }
      } else {
        assert end.failure.Some?;
      }
    }
  }

  /**
   * A run with a desired exit code, on a chain nothing has consumed yet,
   * passes exactly when the action made one matching call per scripted item,
   * in order, and returned the desired exit code.
   */
  lemma RunPassesIff(desired: Option<int>, chain: seq<Item>, calls: seq<Call>, exitCode: int)
    ensures Verdict(desired, chain, Replay(0, 0, [], None), calls, exitCode).None?
            <==> && desired == Some(exitCode)
                 && |calls| == |chain|
                 && forall i :: 0 <= i < |calls| ==> Matches(chain[i], calls[i])
  {
    ReplayFromStart(chain, calls);
  }

  /** Answering a call never moves the position back, nor counts an item twice. */
  lemma {:induction false} ReplayKeepsOrder(chain: seq<Item>, st: Replay, calls: seq<Call>)
    requires st.handled <= st.index <= |chain|
    ensures var end := ReplayCalls(chain, st, calls);
      && st.index <= end.index <= |chain|
      && st.handled <= end.handled <= end.index
      && end.handled - st.handled <= |calls|
    decreases |calls|
  {
    if calls != [] {
      ReplayKeepsOrder(chain, st, calls[..|calls| - 1]);
    }
  }

  class CommandTest {
    var command: string
    var eventChain: seq<Item>
    /** `currentIndex`; its initial null is read as 0 before anything else reads it. */
    var currentIndex: nat
    var eventChainItemsHandled: nat
    /** `desiredExitCode`; None is null, which `isset` treats as unset. */
    var desiredExitCode: Option<int>

    /** Every handled item was consumed, and the position stays inside the chain. */
    predicate Valid()
      reads this
    {
      eventChainItemsHandled <= currentIndex <= |eventChain|
    }

    /** `__construct`, without `setupController`. */
    constructor (command: string)
      ensures this.command == command && eventChain == [] && currentIndex == 0
      ensures eventChainItemsHandled == 0 && desiredExitCode == None
      ensures Valid()
    {
      this.command := command;
      eventChain := [];
      currentIndex := 0;
      eventChainItemsHandled := 0;
      desiredExitCode := None;
    }

    /** `exitCode`: records the desired exit code and returns the test for chaining. */
    method ExitCode(value: Option<int>) returns (self: CommandTest)
      modifies this`desiredExitCode
      ensures self == this && desiredExitCode == value
    {
      desiredExitCode := value;
      self := this;
    }

    /** `addEventChainItem`: appends one item and returns the test for chaining. */
    method AddEventChainItem(item: Item) returns (self: CommandTest)
      requires Valid()
      modifies this`eventChain
      ensures self == this && eventChain == old(eventChain) + [item]
      ensures Valid()
    {
      eventChain := eventChain + [item];
      self := this;
    }

    /** `stdOut`: expects one line on standard output. */
    method StdOut(desiredOutput: string) returns (self: CommandTest)
      requires Valid()
      modifies this`eventChain
      ensures self == this && eventChain == old(eventChain) + [Item(ItemType.StdOut, desiredOutput, NullValue, false, NullValue)]
      ensures Valid()
    {
      self := AddEventChainItem(Item(ItemType.StdOut, desiredOutput, NullValue, false, NullValue));
    }

    /** `stderr`: expects one line on standard error. */
    method Stderr(desiredOutput: string) returns (self: CommandTest)
      requires Valid()
      modifies this`eventChain
      ensures self == this && eventChain == old(eventChain) + [Item(StdErr, desiredOutput, NullValue, false, NullValue)]
      ensures Valid()
    {
      self := AddEventChainItem(Item(StdErr, desiredOutput, NullValue, false, NullValue));
    }

    /** `prompt`: expects a prompt with these options, answered with `returnValue`. */
    method Prompt(prompt: string, returnValue: Value, options: Value) returns (self: CommandTest)
      requires Valid()
      modifies this`eventChain
      ensures self == this && eventChain == old(eventChain) + [Item(ItemType.Prompt, prompt, options, false, returnValue)]
      ensures Valid()
    {
      self := AddEventChainItem(Item(ItemType.Prompt, prompt, options, false, returnValue));
    }

    /** `confirm`: expects a confirmation with this default, answered with `returnValue`. */
    method Confirm(message: string, returnValue: Value, default: bool) returns (self: CommandTest)
      requires Valid()
      modifies this`eventChain
      ensures self == this && eventChain == old(eventChain) + [Item(ItemType.Confirm, message, NullValue, default, returnValue)]
      ensures Valid()
    {
      self := AddEventChainItem(Item(ItemType.Confirm, message, NullValue, default, returnValue));
    }

    /** `select`: expects a selection among these options, answered with `returnValue`. */
    method Select(prompt: string, returnValue: Value, options: Value) returns (self: CommandTest)
      requires Valid()
      modifies this`eventChain
      ensures self == this && eventChain == old(eventChain) + [Item(ItemType.Select, prompt, options, false, returnValue)]
      ensures Valid()
    {
      self := AddEventChainItem(Item(ItemType.Select, prompt, options, false, returnValue));
    }

    /** `getNextItem`: the item at the position, consumed; none once the chain is used up. */
    method GetNextItem() returns (item: Option<Item>)
      requires Valid()
      modifies this`currentIndex
      ensures Valid()
      ensures old(currentIndex) == |eventChain| ==> item.None? && currentIndex == old(currentIndex)
      ensures old(currentIndex) < |eventChain| ==>
                item == Some(eventChain[old(currentIndex)]) && currentIndex == old(currentIndex) + 1
    {
      if |eventChain| == currentIndex {
        return None;
      }
      item := Some(eventChain[currentIndex]);
      currentIndex := currentIndex + 1;
    }

    /**
     * `runHandlerCheck`: takes the next item and demands it has the handler's
     * type; only then is it counted as handled.
     */
    method RunHandlerCheck(out: string, t: ItemType) returns (item: Item, failure: Option<Failure>)
      requires Valid()
      modifies this`currentIndex, this`eventChainItemsHandled
      ensures Valid()
      ensures old(currentIndex) == |eventChain| ==>
                failure == Some(NoMoreItems(out))
                && currentIndex == old(currentIndex) && eventChainItemsHandled == old(eventChainItemsHandled)
      ensures old(currentIndex) < |eventChain| ==>
                currentIndex == old(currentIndex) + 1
                && var next := eventChain[old(currentIndex)];
                   if next.itemType != t then
                     failure == Some(WrongType(t, next.itemType))
                     && eventChainItemsHandled == old(eventChainItemsHandled)
                   else
                     failure == None && item == next
                     && eventChainItemsHandled == old(eventChainItemsHandled) + 1
    {
      var next := GetNextItem();
      if next.None? {
        return Item(t, "", NullValue, false, NullValue), Some(NoMoreItems(out));
      }
      // The source compares the type names with `!==`; equal names mean equal types.
      TypeNameInjective(next.value.itemType, t);
      if TypeName(next.value.itemType) != TypeName(t) {
        return next.value, Some(WrongType(t, next.value.itemType));
      }
      eventChainItemsHandled := eventChainItemsHandled + 1;
      return next.value, None;
    }

    /**
     * The handler installed for the call's console method: `runHandlerCheck`,
     * then the `assertSame` checks, then the scripted return value.
     */
    method Handle(call: Call) returns (reply: Option<Value>, failure: Option<Failure>)
      requires Valid()
      modifies this`currentIndex, this`eventChainItemsHandled
      ensures Valid()
      ensures var st := Step(eventChain, Replay(old(currentIndex), old(eventChainItemsHandled), [], None), call);
        && currentIndex == st.index && eventChainItemsHandled == st.handled && failure == st.failure
        && (failure.None? ==> st.replies == [reply])
    {
      var item;
      item, failure := RunHandlerCheck(Printed(call), CallType(call));
      if failure.Some? {
        return None, failure;
      }
      match call {
        case OutCall(out) =>
          if item.text != out { return None, Some(NotSame); }
          reply := None;
        case ErrCall(out) =>
          if item.text != out { return None, Some(NotSame); }
          reply := None;
        case PromptCall(text, options) =>
          if item.text != text { return None, Some(NotSame); }
          if item.options != options { return None, Some(NotSame); }
          reply := Some(item.returnValue);
        case ConfirmCall(message, default) =>
          if item.text != message { return None, Some(NotSame); }
          if item.default != default { return None, Some(NotSame); }
          reply := Some(item.returnValue);
        case SelectCall(text, options) =>
          if item.text != text { return None, Some(NotSame); }
          if item.options != options { return None, Some(NotSame); }
          reply := Some(item.returnValue);
      }
    }

    /**
     * `run`: refuses to start without a desired exit code; otherwise runs the
     * action (its console calls, then `exitCode`), then asserts the exit code
     * and that every item of the chain was handled.
     */
    method Run(calls: seq<Call>, exitCode: int) returns (failure: Option<Failure>, replies: seq<Option<Value>>)
      requires Valid()
      modifies this`currentIndex, this`eventChainItemsHandled
      ensures Valid()
      ensures var start := Replay(old(currentIndex), old(eventChainItemsHandled), [], None);
        && failure == Verdict(desiredExitCode, eventChain, start, calls, exitCode)
        && (desiredExitCode.Some? ==>
              var end := ReplayCalls(eventChain, start, calls);
              currentIndex == end.index && eventChainItemsHandled == end.handled && replies == end.replies)
      ensures desiredExitCode.None? ==>
                currentIndex == old(currentIndex) && eventChainItemsHandled == old(eventChainItemsHandled)
                && replies == []
    {
      if desiredExitCode.None? {
        return Some(MissingExitCode), [];
      }
      ghost var start := Replay(currentIndex, eventChainItemsHandled, [], None);
      replies := [];
      var i := 0;
      while i < |calls|
        invariant 0 <= i <= |calls| && Valid()
        invariant ReplayCalls(eventChain, start, calls[..i]) == Replay(currentIndex, eventChainItemsHandled, replies, None)
      {
        assert calls[..i + 1][..i] == calls[..i];
        var reply, stepFailure := Handle(calls[i]);
        if stepFailure.Some? {
          ReplayFailureSticks(eventChain, ReplayCalls(eventChain, start, calls[..i + 1]), calls[i + 1..]);
          assert calls[..i + 1] + calls[i + 1..] == calls;
          ReplayAppend(eventChain, start, calls[..i + 1], calls[i + 1..]);
          return stepFailure, replies;
        }
        replies := replies + [reply];
        i := i + 1;
      }
      assert calls[..i] == calls;
      if desiredExitCode.value != exitCode {
        return Some(ExitCodeMismatch), replies;
      }
      if eventChainItemsHandled != |eventChain| {
        return Some(UnhandledItems), replies;
      }
      return None, replies;
    }
  }

  /** Replaying two batches of calls is replaying them together. */
  lemma {:induction false} ReplayAppend(chain: seq<Item>, st: Replay, first: seq<Call>, second: seq<Call>)
    ensures ReplayCalls(chain, ReplayCalls(chain, st, first), second) == ReplayCalls(chain, st, first + second)
    decreases |second|
  {
    if second == [] {
      assert first + second == first;
    } else {
      var init := second[..|second| - 1];
      assert (first + second)[..|first + second| - 1] == first + init;
      assert (first + second)[|first + second| - 1] == second[|second| - 1];
      ReplayAppend(chain, st, first, init);
    }
  }

  /** Once a call has failed, later calls change nothing. */
  lemma {:induction false} ReplayFailureSticks(chain: seq<Item>, st: Replay, calls: seq<Call>)
    requires st.failure.Some?
    ensures ReplayCalls(chain, st, calls) == st
    decreases |calls|
  {
    if calls != [] {
      ReplayFailureSticks(chain, st, calls[..|calls| - 1]);
    }
  }
}
