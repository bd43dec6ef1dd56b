/** The part of the WHATWG URL standard that the middleware relies on: a URL
    split into origin, pathname and search parameters, and the `get` and
    `set` operations of its URLSearchParams list. */
module Urls {
  import opened Wrappers

  /** One name/value pair of a query string. */
  datatype Param = Param(name: string, value: string)

  /** The search parameters of a URL: an ordered list in which a name may
      occur several times. */
  type Query = seq<Param>

  /** A parsed URL. The fragment never reaches the server and is not kept. */
  datatype Url = Url(origin: string, path: string, query: Query)

  /** The values given for `name`, in order. */
  function Values(q: Query, name: string): (r: seq<string>)
    ensures |r| <= |q|
  {
    if q == [] then []
    else if q[0].name == name then [q[0].value] + Values(q[1..], name)
    else Values(q[1..], name)
  }

  /** The list with every pair named `name` removed, the rest kept in order. */
  function Without(q: Query, name: string): (r: Query)
    ensures forall p :: p in r <==> p in q && p.name != name
  {
    if q == [] then []
    else if q[0].name == name then Without(q[1..], name)
    else [q[0]] + Without(q[1..], name)
  }

  /** `searchParams.get(name)`: the value of the first pair named `name`, or
      null when there is none. */
  function Get(q: Query, name: string): Option<string> {
    if q == [] then None
    else if q[0].name == name then Some(q[0].value)
    else Get(q[1..], name)
  }

  /** `searchParams.set(name, value)`: the first pair named `name` gets the new
      value and every later pair of that name is removed; when there is no
      such pair, a new one is appended. */
  function Set(q: Query, name: string, value: string): Query {
    if q == [] then [Param(name, value)]
    else if q[0].name == name then [Param(name, value)] + Without(q[1..], name)
    else [q[0]] + Set(q[1..], name, value)
  }

  /** True when no pair is named `name`. */
  predicate Absent(q: Query, name: string) {
    forall i :: 0 <= i < |q| ==> q[i].name != name
  }

  lemma {:induction false} GetIsFirstValue(q: Query, name: string)
    ensures Get(q, name) == if Values(q, name) == [] then None else Some(Values(q, name)[0])
    ensures Get(q, name).None? <==> Absent(q, name)
  {
    if q != [] && q[0].name != name {
      GetIsFirstValue(q[1..], name);
      assert forall i :: 1 <= i < |q| ==> q[i] == q[1..][i - 1];
    }
  }

  lemma {:induction false} WithoutHasNoValues(q: Query, name: string)
    ensures Values(Without(q, name), name) == []
    ensures Without(Without(q, name), name) == Without(q, name)
  {
    if q != [] {
      WithoutHasNoValues(q[1..], name);
    }
  }

  lemma {:induction false} WithoutKeepsOtherValues(q: Query, name: string, other: string)
    requires other != name
    ensures Values(Without(q, name), other) == Values(q, other)
  {
    if q != [] {
      WithoutKeepsOtherValues(q[1..], name, other);
    }
  }

  /** After `set`, exactly one pair carries `name`, and its value is the one
      given. */
  lemma {:induction false} SetLeavesOneValue(q: Query, name: string, value: string)
    ensures Values(Set(q, name, value), name) == [value]
    ensures Get(Set(q, name, value), name) == Some(value)
  {
    if q == [] {
    } else if q[0].name == name {
      WithoutHasNoValues(q[1..], name);
    } else {
      SetLeavesOneValue(q[1..], name, value);
    }
  }

  /** `set` leaves every other pair in place and in order. */
  lemma {:induction false} SetKeepsOthers(q: Query, name: string, value: string)
    ensures Without(Set(q, name, value), name) == Without(q, name)
  {
    if q == [] {
    } else if q[0].name == name {
      WithoutHasNoValues(q[1..], name);
    } else {
      SetKeepsOthers(q[1..], name, value);
    }
  }

  /** Every other name reads the same values after `set` as before. */
  lemma {:induction false} SetKeepsOtherValues(q: Query, name: string, value: string, other: string)
    requires other != name
    ensures Values(Set(q, name, value), other) == Values(q, other)
    ensures Get(Set(q, name, value), other) == Get(q, other)
  {
    if q == [] {
    } else if q[0].name == name {
      WithoutKeepsOtherValues(q[1..], name, other);
    } else {
      SetKeepsOtherValues(q[1..], name, value, other);
    }
    GetIsFirstValue(q, other);
    GetIsFirstValue(Set(q, name, value), other);
  }

  /** When no pair is named `name`, `set` appends one at the end. */
  lemma {:induction false} SetAppendsWhenAbsent(q: Query, name: string, value: string)
    requires Absent(q, name)
    ensures Set(q, name, value) == q + [Param(name, value)]
  {
    if q != [] {
      assert Absent(q[1..], name) by {
        forall j | 0 <= j < |q| - 1 ensures q[1..][j].name != name {
          assert q[1..][j] == q[j + 1];
        }
      }
      SetAppendsWhenAbsent(q[1..], name, value);
      assert q == [q[0]] + q[1..];
    }
  }

  /** When `q[i]` is the first pair named `name`, `set` puts the new pair in
      its place, keeps everything before it and drops every later pair of
      that name. */
  lemma {:induction false} SetReplacesFirst(q: Query, name: string, value: string, i: nat)
    requires i < |q| && q[i].name == name && Absent(q[..i], name)
    ensures Set(q, name, value) == q[..i] + [Param(name, value)] + Without(q[i + 1..], name)
  {
    if i > 0 {
      assert q[0].name != name by { assert q[0] == q[..i][0]; }
      var t := q[1..];
      assert t[i - 1] == q[i];
      assert t[..i - 1] == q[1..i];
      var before := t[..i - 1];
      assert Absent(before, name) by {
        forall j | 0 <= j < |before| ensures before[j].name != name {
          assert before[j] == q[..i][j + 1];
        }
      }
      SetReplacesFirst(t, name, value, i - 1);
      var rest := Without(q[i + 1..], name);
      assert t[i..] == q[i + 1..];
      assert q[..i] == [q[0]] + before;
      calc {
        Set(q, name, value);
        [q[0]] + Set(t, name, value);
        [q[0]] + (before + [Param(name, value)] + rest);
        q[..i] + [Param(name, value)] + rest;
      }
    }
  }

  /** Setting the same value twice is the same as setting it once. */
  lemma {:induction false} SetIdempotent(q: Query, name: string, value: string)
    ensures Set(Set(q, name, value), name, value) == Set(q, name, value)
  {
    if q == [] {
    } else if q[0].name == name {
      WithoutHasNoValues(q[1..], name);
      WithoutAbsentIsIdentity(Without(q[1..], name), name);
    } else {
      SetIdempotent(q[1..], name, value);
    }
  }

  /** Removing a name that does not occur changes nothing. */
  lemma {:induction false} WithoutAbsentIsIdentity(q: Query, name: string)
    requires Values(q, name) == []
    ensures Without(q, name) == q
  {
    if q != [] {
      WithoutAbsentIsIdentity(q[1..], name);
    }
  }
}
