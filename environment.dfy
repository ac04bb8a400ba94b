/**
 * The register store: a map from a register token's lexeme (`t0`, `s1`, ...)
 * to its value, where a register never written reads as 0.
 */
module Registers {
  import opened Tokens

  /** `get` on the map `values`: the value stored under `name`, or 0 when there is none. */
  function Lookup(values: map<string, int>, name: string): int {
    if name in values then values[name] else 0
  }

  /** The map after `assign(name, value)`: `put` when the key is there, `define` when it is not. */
  function Assigned(values: map<string, int>, name: Token, value: int): map<string, int> {
    if name.lexeme in values then values[name.lexeme := value] else Defined(values, name.lexeme, value)
  }

  /** The map after `define(name, value)`. */
  function Defined(values: map<string, int>, name: string, value: int): map<string, int> {
    values[name := value]
  }

  /** The register store object of the interpreter. */
  class Environment {
    var values: map<string, int>

    constructor ()
      ensures values == map[]
    {
      values := map[];
    }

    function Get(name: Token): int
      reads this
    {
      Lookup(values, name.lexeme)
    }

    method Assign(name: Token, value: int)
      modifies this
      ensures values == Assigned(old(values), name, value)
    {
      if name.lexeme in values {
        values := values[name.lexeme := value];
        return;
      }
      Define(name.lexeme, value);
    }

    method Define(name: string, value: int)
      modifies this
      ensures values == Defined(old(values), name, value)
    {
      values := values[name := value];
    }
  }

  // ---------------------------------------------------------------------
  // Properties

  /** `assign` is an upsert: whether or not the key was there, it ends as a `put`. */
  lemma AssignIsUpsert(values: map<string, int>, name: Token, value: int)
    ensures Assigned(values, name, value) == values[name.lexeme := value]
    ensures Assigned(values, name, value).Keys == values.Keys + {name.lexeme}
  {
  }

  /** After `assign(n, v)`, `get(n)` is `v`, and `get` of every other lexeme is what it was. */
  lemma GetAfterAssign(values: map<string, int>, name: Token, value: int, other: string)
    ensures Lookup(Assigned(values, name, value), name.lexeme) == value
    ensures other != name.lexeme ==> Lookup(Assigned(values, name, value), other) == Lookup(values, other)
  {
  }

  /**
   * The key is the lexeme alone: a token with the same text, whatever its
   * category or line, reads what the other one wrote.
   */
  lemma LexemesAlias(values: map<string, int>, written: Token, read: Token, value: int)
    requires written.lexeme == read.lexeme
    ensures Lookup(Assigned(values, written, value), read.lexeme) == value
  {
  }

  /** The map after a series of `assign` calls, in order. */
  function AssignAll(values: map<string, int>, writes: seq<(Token, int)>): map<string, int>
    decreases |writes|
  {
    if writes == [] then values
    else AssignAll(Assigned(values, writes[0].0, writes[0].1), writes[1..])
  }

  /** A lexeme that no `assign` named reads as 0, starting from the empty store. */
  lemma {:induction false} NeverAssignedReadsZero(writes: seq<(Token, int)>, name: string)
    requires forall i :: 0 <= i < |writes| ==> writes[i].0.lexeme != name
    ensures Lookup(AssignAll(map[], writes), name) == 0
  {
    UnassignedKeepsValue(map[], writes, name);
  }

  /** A series of `assign` calls that never names `name` leaves its value alone. */
  lemma {:induction false} UnassignedKeepsValue(values: map<string, int>, writes: seq<(Token, int)>, name: string)
    requires forall i :: 0 <= i < |writes| ==> writes[i].0.lexeme != name
    ensures Lookup(AssignAll(values, writes), name) == Lookup(values, name)
    decreases |writes|
  {
    if writes != [] {
      var next := Assigned(values, writes[0].0, writes[0].1);
      assert Lookup(next, name) == Lookup(values, name);
      assert forall i :: 0 <= i < |writes[1..]| ==> writes[1..][i] == writes[i + 1];
      UnassignedKeepsValue(next, writes[1..], name);
    }
  }
}
