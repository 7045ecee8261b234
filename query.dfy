/**
  The query strings the caption code rebuilds. The source query arrives already split by
  `parse_qs` (the parsing itself is library code and not part of this model): a map from each
  key to the list of its values, never an empty list. The rebuilt query is a list of key/value
  pairs in insertion order, the way a Python dict keeps them, joined as `key=value` with `&`.
 */
module Query {
  import opened Wrappers
  import Lists
  import Strings

  /** What `parse_qs` returns: every key present carries at least one value. */
  type ParsedQuery = q: map<string, seq<string>> | forall k :: k in q ==> q[k] != []
    witness map[]

  /** `query_params.get(k, [default])[0]`. */
  function First(q: ParsedQuery, k: string, default: string): string {
    if k in q then q[k][0] else default
  }

  /** `query_params.get(k, [None])[0]`. */
  function FirstOrNone(q: ParsedQuery, k: string): Option<string> {
    if k in q then Some(q[k][0]) else None
  }

  type Param = (string, string)

  /** `f"{key}={value}"`. */
  function Pair(p: Param): string {
    p.0 + "=" + p.1
  }

  /** `"&".join(f"{key}={value}" for key, value in params.items())`. */
  function QueryString(params: seq<Param>): string {
    Strings.Join(Lists.Map(Pair, params), '&')
  }

  /** No key or value holds the separators, so each parameter can be read back from the text. */
  predicate Separable(params: seq<Param>) {
    forall i :: 0 <= i < |params| ==> '&' !in params[i].0 && '&' !in params[i].1 && '=' !in params[i].0
  }

  /**
    Reading the query string back: splitting it at `&` gives one part per parameter, in order,
    and each part is its key, an `=`, and its value, the key ending at the first `=`.
   */
  lemma QueryStringFields(params: seq<Param>)
    requires params != [] && Separable(params)
    ensures |Strings.Split(QueryString(params), '&')| == |params|
    ensures forall i :: 0 <= i < |params| ==>
              var part := Strings.Split(QueryString(params), '&')[i];
              part == params[i].0 + "=" + params[i].1 &&
              Strings.BeforeFirst(part, '=') == params[i].0
  {
    var parts := Lists.Map(Pair, params);
    Lists.MapAt(Pair, params);
    forall i | 0 <= i < |parts| ensures '&' !in parts[i] {
      assert parts[i] == params[i].0 + "=" + params[i].1;
    }
    Strings.SplitJoin(parts, '&');
    forall i | 0 <= i < |params|
      ensures Strings.BeforeFirst(parts[i], '=') == params[i].0
    {
      assert parts[i] == params[i].0 + ['='] + params[i].1;
      Strings.BeforeFirstOf(params[i].0, '=', params[i].1);
    }
  }

  predicate HasKey(params: seq<Param>, k: string) {
    exists i :: 0 <= i < |params| && params[i].0 == k
  }

  /** `d[k] = v`: an existing key keeps its place and takes the new value; a new key goes last. */
  function Assign(params: seq<Param>, k: string, v: string): seq<Param> {
    if params == [] then [(k, v)]
    else if params[0].0 == k then [(k, v)] + params[1..]
    else [params[0]] + Assign(params[1..], k, v)
  }

  /** Assigning a key the dict does not hold appends it. */
  lemma {:induction false} AssignNew(params: seq<Param>, k: string, v: string)
    requires !HasKey(params, k)
    ensures Assign(params, k, v) == params + [(k, v)]
  {
    if params != [] {
      assert !HasKey(params[1..], k) by {
        forall i | 0 <= i < |params| - 1 ensures params[1..][i].0 != k {
          assert params[1..][i] == params[i + 1];
        }
      }
      AssignNew(params[1..], k, v);
    }
  }
}
