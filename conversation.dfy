/**
  * What every conversation handler is handed besides the update: the
  * per-user `context.user_data` dictionary, shared by the three flows, and
  * the ways the final step of a flow can fail.
  */
module Conversation {
  import opened Tables

  const CustomerNameKey := "customer_name"
  const CompanyNameKey := "company_name"
  const ProductTypeKey := "product_type"
  const QuantityKey := "quantity"
  const DeliveryDateKey := "delivery_date"
  const ContactInfoKey := "contact_info"
  const PreferredDatetimeKey := "preferred_datetime"
  const MessageTextKey := "message_text"

  /** `context.user_data`: one dictionary per user, kept across updates. */
  class UserContext {
    var userData: map<string, Value>

    constructor(initial: map<string, Value>)
      ensures userData == initial
    {
      userData := initial;
    }
  }

  /**
    * The outcome of the `try` block of a final step: `StoreFault` is an
    * exception raised by the insert (nothing stored), `ReplyFault` one
    * raised by the summary reply after the insert (row stored, no
    * notification).
    */
  datatype Fault = NoFault | StoreFault | ReplyFault

  predicate Distinct(steps: seq<string>) {
    forall i, j :: 0 <= i < j < |steps| ==> steps[i] != steps[j]
  }

  /** The keys the first `n` steps of a flow have stored. */
  function Stored(steps: seq<string>, n: nat): (keys: set<string>)
    requires n <= |steps|
    ensures forall k :: k in keys <==> k in steps[..n]
    ensures Distinct(steps) ==> |keys| == n
  {
    if n == 0 then {}
    else
      var before := Stored(steps, n - 1);
      assert steps[..n] == steps[..n - 1] + [steps[n - 1]];
      assert Distinct(steps) ==> steps[n - 1] !in steps[..n - 1];
      before + {steps[n - 1]}
  }

  /** `data` holds exactly the first `n` keys, none of them `None` unless it may be. */
  ghost predicate Holds(data: map<string, Value>, steps: seq<string>, n: nat, nullable: set<string>)
    requires n <= |steps|
  {
    && data.Keys == Stored(steps, n)
    && forall k :: k in data && k !in nullable ==> data[k] != Null
  }

  /** Storing the next step's key, with a value allowed there, moves `Holds` one step on. */
  lemma {:induction false} HoldsStep(data: map<string, Value>, steps: seq<string>, n: nat, nullable: set<string>, v: Value)
    requires n < |steps| && Holds(data, steps, n, nullable)
    requires v != Null || steps[n] in nullable
    ensures Holds(data[steps[n] := v], steps, n + 1, nullable)
  {
    var next := data[steps[n] := v];
    forall k ensures k in next.Keys <==> k in Stored(steps, n + 1) {
      assert steps[..n + 1] == steps[..n] + [steps[n]];
    }
  }

  /**
    * While a flow whose first step is `first` waits in step `state`,
    * `user_data` holds exactly what the steps before it stored.
    */
  ghost predicate InStep(state: int, first: int, steps: seq<string>, nullable: set<string>, data: map<string, Value>) {
    first <= state <= first + |steps| ==> Holds(data, steps, state - first, nullable)
  }

  /** A step that stores its key, with a value allowed there, hands the next step what it expects. */
  lemma Advance(state: int, first: int, steps: seq<string>, nullable: set<string>, data: map<string, Value>, v: Value)
    requires first <= state < first + |steps| && InStep(state, first, steps, nullable, data)
    requires v != Null || steps[state - first] in nullable
    ensures InStep(state + 1, first, steps, nullable, data[steps[state - first] := v])
  {
    var n := state - first;
    assert Holds(data, steps, n, nullable);
    HoldsStep(data, steps, n, nullable, v);
    assert state + 1 - first == n + 1;
  }
}
