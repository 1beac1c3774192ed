/** JSON values as the web client sees them after parsing a response body,
    with the few JavaScript operations the client applies to them: truthiness,
    property read, property write, `delete`, and the string conversion
    `Array.prototype.join` performs. Numbers are integers here; an object is
    its list of (key, value) pairs in insertion order. */
module Json {
  import opened Common

  datatype Json =
    | JNull
    | JBool(b: bool)
    | JNum(n: int)
    | JStr(s: string)
    | JArr(items: seq<Json>)
    | JObj(fields: seq<(string, Json)>)

  /** JavaScript truthiness: null, false, 0 and "" are falsy; arrays and
      objects, even empty ones, are truthy. */
  predicate Truthy(v: Json) {
    match v
    case JNull => false
    case JBool(b) => b
    case JNum(n) => n != 0
    case JStr(s) => s != ""
    case JArr(_) => true
    case JObj(_) => true
  }

  predicate HasKey(fields: seq<(string, Json)>, k: string) {
    exists i :: 0 <= i < |fields| && fields[i].0 == k
  }

  /** `o[k]`: the value under the first occurrence of the key; None stands
      for `undefined`. */
  function Get(fields: seq<(string, Json)>, k: string): (r: Option<Json>)
    ensures r.None? <==> !HasKey(fields, k)
    ensures r.Some? ==> exists i :: 0 <= i < |fields| && fields[i] == (k, r.value)
    decreases |fields|
  {
    if |fields| == 0 then None
    else if fields[0].0 == k then Some(fields[0].1)
    else
      var r := Get(fields[1..], k);
      assert r.Some? ==> exists i :: 0 <= i < |fields[1..]| && fields[1..][i] == (k, r.value);
      assert HasKey(fields, k) ==> HasKey(fields[1..], k) by {
        if HasKey(fields, k) {
          var i :| 0 <= i < |fields| && fields[i].0 == k;
          assert fields[1..][i - 1].0 == k;
        }
      }
      r
  }

  /** Reading through a leading pair. */
  lemma GetCons(p: (string, Json), rest: seq<(string, Json)>, k: string)
    ensures Get([p] + rest, k) == if p.0 == k then Some(p.1) else Get(rest, k)
    ensures HasKey([p] + rest, k) <==> p.0 == k || HasKey(rest, k)
  {
    assert ([p] + rest)[1..] == rest;
    if HasKey(rest, k) {
      var i :| 0 <= i < |rest| && rest[i].0 == k;
      assert ([p] + rest)[i + 1].0 == k;
    }
  }

  /** `o[k] = v`: an existing key keeps its position, a new one goes last. */
  function Set(fields: seq<(string, Json)>, k: string, v: Json): (r: seq<(string, Json)>)
    ensures Get(r, k) == Some(v)
    ensures forall k' :: k' != k ==> Get(r, k') == Get(fields, k')
    ensures HasKey(fields, k) ==> |r| == |fields| && forall i :: 0 <= i < |r| ==> r[i].0 == fields[i].0
    ensures !HasKey(fields, k) ==> r == fields + [(k, v)]
    decreases |fields|
  {
    if |fields| == 0 then [(k, v)]
    else
      assert fields == [fields[0]] + fields[1..];
      GetCons(fields[0], fields[1..], k);
      if fields[0].0 == k then
        var r := [(k, v)] + fields[1..];
        GetCons((k, v), fields[1..], k);
        assert forall k' :: k' != k ==> Get(r, k') == Get(fields, k') by {
          forall k' | k' != k ensures Get(r, k') == Get(fields, k') {
            GetCons((k, v), fields[1..], k');
            GetCons(fields[0], fields[1..], k');
          }
        }
        r
      else
        var t := Set(fields[1..], k, v);
        var r := [fields[0]] + t;
        GetCons(fields[0], t, k);
        assert HasKey(fields, k) ==> forall i :: 0 <= i < |r| ==> r[i].0 == fields[i].0 by {
          if HasKey(fields, k) {
            forall i | 0 <= i < |r| ensures r[i].0 == fields[i].0 {
              if i > 0 { assert r[i] == t[i - 1] && fields[i] == fields[1..][i - 1]; }
            }
          }
        }
        assert forall k' :: k' != k ==> Get(r, k') == Get(fields, k') by {
          forall k' | k' != k ensures Get(r, k') == Get(fields, k') {
            GetCons(fields[0], t, k');
            GetCons(fields[0], fields[1..], k');
          }
        }
        r
  }

  /** `delete o[k]`. */
  function Remove(fields: seq<(string, Json)>, k: string): (r: seq<(string, Json)>)
    ensures Get(r, k).None?
    ensures forall k' :: k' != k ==> Get(r, k') == Get(fields, k')
    ensures !HasKey(fields, k) ==> r == fields
    ensures |r| <= |fields|
    decreases |fields|
  {
    if |fields| == 0 then []
    else
      assert fields == [fields[0]] + fields[1..];
      GetCons(fields[0], fields[1..], k);
      var t := Remove(fields[1..], k);
      assert forall k' :: k' != k ==> Get(t, k') == Get(fields[1..], k');
      if fields[0].0 == k then
        assert forall k' :: k' != k ==> Get(t, k') == Get(fields, k') by {
          forall k' | k' != k ensures Get(t, k') == Get(fields, k') {
            GetCons(fields[0], fields[1..], k');
          }
        }
        t
      else
        var r := [fields[0]] + t;
        GetCons(fields[0], t, k);
        assert forall k' :: k' != k ==> Get(r, k') == Get(fields, k') by {
          forall k' | k' != k ensures Get(r, k') == Get(fields, k') {
            GetCons(fields[0], t, k');
            GetCons(fields[0], fields[1..], k');
          }
        }
        r
  }

  function IntToString(n: int): string {
    if n < 0 then "-" + NatToString(-n) else NatToString(n)
  }

  /** The text `join` writes for one element: null gives "". */
  function JoinText(v: Json): (t: string)
    ensures v.JNull? ==> t == ""
    ensures v.JStr? ==> t == v.s
    decreases v, 1
  {
    if v.JNull? then "" else ToText(v)
  }

  /** `String(v)`: an array is its elements joined with ",", an object is
      "[object Object]". */
  function ToText(v: Json): string
    decreases v, 0
  {
    match v
    case JNull => "null"
    case JBool(b) => if b then "true" else "false"
    case JNum(n) => IntToString(n)
    case JStr(s) => s
    case JArr(items) => Join(seq(|items|, i requires 0 <= i < |items| => JoinText(items[i])), ",")
    case JObj(_) => "[object Object]"
  }
}
