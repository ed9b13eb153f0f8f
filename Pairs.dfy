/** The `key=value&key=value` parameter lists shared by the command, the
    discovery and the telemetry messages. */
module Pairs {
  import opened Wrappers
  import opened JavaText

  /** One parameter as both activities read it: `param.split("=", 2)` and, when
      that gives two parts, the trimmed key and the trimmed value. A piece
      without `=` is not a parameter. */
  function ParsePair(param: string): (r: Option<(string, string)>)
    ensures r.Some? <==> '=' in param
    ensures r.Some? ==> IsTrimmed(r.value.0) && IsTrimmed(r.value.1)
  {
    match SplitAtFirst(param, '=')
    case None => None
    case Some((k, v)) => Some((Trim(k), Trim(v)))
  }

  /** `param` is a parameter whose trimmed key is `key`. */
  predicate HasKey(param: string, key: string) {
    ParsePair(param).Some? && ParsePair(param).value.0 == key
  }

  /** One `params.put(key, value)` for a parameter that parses; any other
      piece leaves the map as it was. */
  function Put(m: map<string, string>, param: string): map<string, string> {
    match ParsePair(param)
    case None => m
    case Some(kv) => m[kv.0 := kv.1]
  }

  /** What one `put` does to one key: a parameter carrying the key adds it
      with its value; every other key keeps its presence and value. */
  lemma PutAt(m: map<string, string>, param: string, key: string)
    ensures key in Put(m, param) <==> key in m || HasKey(param, key)
    ensures HasKey(param, key) ==> Put(m, param)[key] == ParsePair(param).value.1
    ensures !HasKey(param, key) && key in m ==> Put(m, param)[key] == m[key]
  {
  }

  /** The `HashMap` filled by `put`-ting each parameter in turn. */
  function PairMap(params: seq<string>): map<string, string> {
    if params == [] then map[] else Put(PairMap(params[..|params| - 1]), params[|params| - 1])
  }

  /** The parameters as parsed, one entry per piece. */
  function Parsed(params: seq<string>): (r: seq<Option<(string, string)>>)
    ensures |r| == |params| && forall k :: 0 <= k < |params| ==> r[k] == ParsePair(params[k])
  {
    seq(|params|, k requires 0 <= k < |params| => ParsePair(params[k]))
  }

  /** The same `put` loop, over pieces that are already parsed. */
  function Collect(parsed: seq<Option<(string, string)>>): map<string, string> {
    if parsed == [] then map[]
    else
      var m := Collect(parsed[..|parsed| - 1]);
      match parsed[|parsed| - 1]
      case None => m
      case Some(kv) => m[kv.0 := kv.1]
  }

  predicate Carries(o: Option<(string, string)>, key: string) {
    o.Some? && o.value.0 == key
  }

  lemma {:induction false} PairMapIsCollect(params: seq<string>)
    ensures PairMap(params) == Collect(Parsed(params))
  {
    if params != [] {
      var n := |params|;
      var init := params[..n - 1];
      assert Parsed(params)[..n - 1] == Parsed(init);
      PairMapIsCollect(init);
    }
  }

  lemma {:induction false} CollectHasKey(parsed: seq<Option<(string, string)>>, key: string)
    ensures key in Collect(parsed) <==> exists i :: 0 <= i < |parsed| && Carries(parsed[i], key)
  {
    if parsed != [] {
      var n := |parsed|;
      var init := parsed[..n - 1];
      CollectHasKey(init, key);
      if key in Collect(init) {
        var i :| 0 <= i < n - 1 && Carries(init[i], key);
        assert parsed[i] == init[i];
      }
      if i :| 0 <= i < n && Carries(parsed[i], key) {
        if i < n - 1 {
          assert init[i] == parsed[i];
        }
      }
    }
  }

  lemma {:induction false} CollectLastWins(parsed: seq<Option<(string, string)>>, key: string, i: nat)
    requires i < |parsed| && Carries(parsed[i], key)
    requires forall j :: i < j < |parsed| ==> !Carries(parsed[j], key)
    ensures key in Collect(parsed) && Collect(parsed)[key] == parsed[i].value.1
  {
    var n := |parsed|;
    var init := parsed[..n - 1];
    if i < n - 1 {
      assert init[i] == parsed[i];
      forall j | i < j < n - 1
        ensures !Carries(init[j], key)
      {
        assert init[j] == parsed[j];
      }
      CollectLastWins(init, key, i);
    }
  }

  /** A key is in the map exactly when some parameter carries it. */
  lemma PairMapHasKey(params: seq<string>, key: string)
    ensures key in PairMap(params) <==> exists i :: 0 <= i < |params| && HasKey(params[i], key)
  {
    var ps := Parsed(params);
    PairMapIsCollect(params);
    CollectHasKey(ps, key);
    if i :| 0 <= i < |params| && HasKey(params[i], key) {
      assert Carries(ps[i], key);
    }
    if i :| 0 <= i < |ps| && Carries(ps[i], key) {
      assert HasKey(params[i], key);
    }
  }

  /** The value under a key is the one of the LAST parameter carrying it. */
  lemma PairMapLastWins(params: seq<string>, key: string, i: nat)
    requires i < |params| && HasKey(params[i], key)
    requires forall j :: i < j < |params| ==> !HasKey(params[j], key)
    ensures key in PairMap(params) && PairMap(params)[key] == ParsePair(params[i]).value.1
  {
    var ps := Parsed(params);
    PairMapIsCollect(params);
    forall j | i < j < |ps|
      ensures !Carries(ps[j], key)
    {
      assert !HasKey(params[j], key);
    }
    CollectLastWins(ps, key, i);
  }

  /** `key=value`. */
  function Param(kv: (string, string)): string {
    kv.0 + "=" + kv.1
  }

  function Params(kvs: seq<(string, string)>): (r: seq<string>)
    ensures |r| == |kvs| && forall k :: 0 <= k < |kvs| ==> r[k] == Param(kvs[k])
  {
    if kvs == [] then [] else [Param(kvs[0])] + Params(kvs[1..])
  }

  /** A key or value that survives the round trip: no `&`, nothing for `trim`
      to remove, and for a key no `=`. */
  predicate PlainKey(k: string) {
    '&' !in k && '=' !in k && IsTrimmed(k)
  }

  predicate PlainValue(v: string) {
    '&' !in v && IsTrimmed(v)
  }

  /** A field name of lower-case ASCII letters, digits and `_`. */
  predicate IsFieldName(s: string) {
    s != [] && forall k :: 0 <= k < |s| ==> 'a' <= s[k] <= 'z' || '0' <= s[k] <= '9' || s[k] == '_'
  }

  /** Field names are plain keys, and free of the message separators. */
  lemma FieldNamePlain(s: string)
    requires IsFieldName(s)
    ensures PlainKey(s) && IsAscii(s) && '|' !in s && '^' !in s
  {
  }

  predicate AllPlain(kvs: seq<(string, string)>) {
    forall k :: 0 <= k < |kvs| ==> PlainKey(kvs[k].0) && PlainValue(kvs[k].1)
  }

  /** The map a list of pairs denotes, a later pair overriding an earlier one. */
  function MapOf(kvs: seq<(string, string)>): map<string, string> {
    if kvs == [] then map[] else MapOf(kvs[..|kvs| - 1])[kvs[|kvs| - 1].0 := kvs[|kvs| - 1].1]
  }

  lemma ParsePairOfParam(kv: (string, string))
    requires PlainKey(kv.0) && IsTrimmed(kv.1)
    ensures ParsePair(Param(kv)) == Some(kv)
  {
    assert Param(kv) == kv.0 + ['='] + kv.1;
    SplitAtFirstOf(kv.0, '=', kv.1);
    TrimOfTrimmed(kv.0);
    TrimOfTrimmed(kv.1);
  }

  lemma {:induction false} PairMapOfParams(kvs: seq<(string, string)>)
    requires AllPlain(kvs)
    ensures PairMap(Params(kvs)) == MapOf(kvs)
  {
    if kvs != [] {
      var n := |kvs|;
      var init, last := kvs[..n - 1], kvs[n - 1];
      var ps := Params(kvs);
      assert ps[..n - 1] == Params(init);
      assert AllPlain(init) by {
        forall k | 0 <= k < n - 1 ensures init[k] == kvs[k] { }
      }
      PairMapOfParams(init);
      ParsePairOfParam(last);
      calc {
        PairMap(ps);
        Put(PairMap(Params(init)), Param(last));
        Put(MapOf(init), Param(last));
        MapOf(init)[last.0 := last.1];
      }
    }
  }

  /** Writing plain pairs as `k=v&k=v...` and reading them back with
      `split("&")` and the `put` loop gives the pairs' map. */
  lemma ParamsRoundTrip(kvs: seq<(string, string)>)
    requires |kvs| >= 1 && AllPlain(kvs)
    ensures PairMap(Split(Join(Params(kvs), '&'), '&')) == MapOf(kvs)
  {
    var ps := Params(kvs);
    ParamsArePieces(kvs);
    SplitJoin(ps, '&');
    PairMapOfParams(kvs);
  }

  /** Written plain pairs are non-empty and free of `&`. */
  lemma ParamsArePieces(kvs: seq<(string, string)>)
    requires |kvs| >= 1 && AllPlain(kvs)
    ensures var ps := Params(kvs);
            (forall k :: 0 <= k < |ps| ==> '&' !in ps[k]) && ps[|ps| - 1] != []
  {
    var ps := Params(kvs);
    forall k | 0 <= k < |ps|
      ensures '&' !in ps[k]
    {
      assert ps[k] == kvs[k].0 + "=" + kvs[k].1;
    }
    assert ps[|ps| - 1][|kvs[|kvs| - 1].0|] == '=';
  }

  /** The two-pair case every message of the protocol uses. */
  lemma TwoPairsRoundTrip(k0: string, v0: string, k1: string, v1: string)
    requires PlainKey(k0) && PlainKey(k1) && PlainValue(v0) && PlainValue(v1)
    ensures PairMap(Split(Join(Params([(k0, v0), (k1, v1)]), '&'), '&')) == map[k0 := v0, k1 := v1]
  {
    var kvs := [(k0, v0), (k1, v1)];
    assert AllPlain(kvs);
    ParamsRoundTrip(kvs);
    assert kvs[..1] == [(k0, v0)] && kvs[..1][..0] == [];
    assert MapOf(kvs[..1]) == map[k0 := v0];
  }

  /** In the map of a pair list, a key holds the value of its last pair. */
  lemma {:induction false} MapOfLookup(kvs: seq<(string, string)>, i: nat)
    requires i < |kvs|
    requires forall j :: i < j < |kvs| ==> kvs[j].0 != kvs[i].0
    ensures kvs[i].0 in MapOf(kvs) && MapOf(kvs)[kvs[i].0] == kvs[i].1
  {
    var n := |kvs|;
    if i < n - 1 {
      var init := kvs[..n - 1];
      assert init[i] == kvs[i];
      MapOfLookup(init, i);
    }
  }

  /** A character in neither keys nor values is not in the written list. */
  lemma {:induction false} ParamsJoinFree(kvs: seq<(string, string)>, c: char)
    requires |kvs| >= 1 && c != '&' && c != '='
    requires forall k :: 0 <= k < |kvs| ==> c !in kvs[k].0 && c !in kvs[k].1
    ensures c !in Join(Params(kvs), '&')
  {
    var ps := Params(kvs);
    if |kvs| > 1 {
      assert Params(kvs[1..]) == ps[1..];
      ParamsJoinFree(kvs[1..], c);
    }
  }
}
