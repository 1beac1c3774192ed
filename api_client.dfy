/** The two response interceptors of the web client's HTTP instance
    (parking-frontend/src/services/api.ts). On success, MongoDB's `_id` is
    renamed to `id` on the body, on each element of an array body and on
    each element of a nested `data` array. On failure, two kinds of server
    error payload get a readable message.

    Reading a property of null throws a TypeError; the model answers None
    there, which stands for the rejected promise. */
module ApiClient {
  import opened Common
  import opened Json

  /** `if (x._id) { x.id = x._id; delete x._id }` on one value. Only an
      object can carry `_id`; on any other value the property reads as
      undefined and nothing happens. */
  function RenameId(v: Json): (r: Json)
    ensures v.JObj? <==> r.JObj?
    ensures !v.JObj? ==> r == v
    ensures v.JObj? ==> Get(r.fields, "_id").None? || !Truthy(Get(r.fields, "_id").value)
    ensures v.JObj? && Get(v.fields, "_id").Some? && Truthy(Get(v.fields, "_id").value) ==>
              Get(r.fields, "id") == Get(v.fields, "_id") && Get(r.fields, "_id").None?
    ensures v.JObj? && (Get(v.fields, "_id").None? || !Truthy(Get(v.fields, "_id").value)) ==> r == v
    ensures v.JObj? ==> forall k :: k != "id" && k != "_id" ==> Get(r.fields, k) == Get(v.fields, k)
  {
    match v
    case JObj(fields) =>
      var id := Get(fields, "_id");
      if id.Some? && Truthy(id.value) then JObj(Remove(Set(fields, "id", id.value), "_id")) else v
    case _ => v
  }

  lemma RenameIdIdempotent(v: Json)
    ensures RenameId(RenameId(v)) == RenameId(v)
  {
  }

  /** The callback of `.map` on each element: a null element throws. */
  function RenamedItems(items: seq<Json>): (r: Option<seq<Json>>)
    ensures r.None? <==> exists i :: 0 <= i < |items| && items[i].JNull?
    ensures r.Some? ==> |r.value| == |items| && forall i :: 0 <= i < |items| ==> r.value[i] == RenameId(items[i])
  {
    if exists i :: 0 <= i < |items| && items[i].JNull? then None
    else Some(seq(|items|, i requires 0 <= i < |items| => RenameId(items[i])))
  }

  /** `.map` over an array, element by element. */
  method RenameEach(items: seq<Json>) returns (r: Option<seq<Json>>)
    ensures r == RenamedItems(items)
  {
    var out: seq<Json> := [];
    var i := 0;
    while i < |items|
      invariant 0 <= i <= |items|
      invariant |out| == i
      invariant forall j :: 0 <= j < i ==> !items[j].JNull? && out[j] == RenameId(items[j])
    {
      if items[i].JNull? {
        return None;
      }
      RenamedOneMore(items, out, i);
      out := out + [RenameId(items[i])];
      i := i + 1;
    }
    RenamedItemsAre(items, out);
    r := Some(out);
  }

  /** One more renamed element extends the renamed prefix. */
  lemma RenamedOneMore(items: seq<Json>, out: seq<Json>, i: nat)
    requires i < |items| && |out| == i && !items[i].JNull?
    requires forall j :: 0 <= j < i ==> !items[j].JNull? && out[j] == RenameId(items[j])
    ensures forall j :: 0 <= j < i + 1 ==> !items[j].JNull? && (out + [RenameId(items[i])])[j] == RenameId(items[j])
  {
    var longer := out + [RenameId(items[i])];
    forall j | 0 <= j < i + 1
      ensures !items[j].JNull? && longer[j] == RenameId(items[j])
    {
      if j < i {
        assert longer[j] == out[j];
      }
    }
  }

  /** Element-wise renamed output with no null element is what `.map` gives. */
  lemma RenamedItemsAre(items: seq<Json>, out: seq<Json>)
    requires |out| == |items|
    requires forall j :: 0 <= j < |items| ==> !items[j].JNull? && out[j] == RenameId(items[j])
    ensures RenamedItems(items) == Some(out)
  {
    assert out == seq(|items|, j requires 0 <= j < |items| => RenameId(items[j]));
  }

  /** Renaming the elements a second time changes nothing. */
  lemma RenamedItemsIdempotent(items: seq<Json>)
    requires RenamedItems(items).Some?
    ensures RenamedItems(RenamedItems(items).value) == RenamedItems(items)
  {
    var ys := RenamedItems(items).value;
    forall i | 0 <= i < |ys|
      ensures !ys[i].JNull? && RenameId(ys[i]) == ys[i]
    {
      RenameIdIdempotent(items[i]);
    }
    assert ys == seq(|ys|, i requires 0 <= i < |ys| => RenameId(ys[i]));
  }

  /** The success interceptor's effect on `response.data`, or None when it
      throws. A truthy body of type object is an array or an object. */
  function Normalised(d: Json): (r: Option<Json>)
    ensures !d.JArr? && !d.JObj? ==> r == Some(d)
    ensures d.JArr? ==> (r.None? <==> RenamedItems(d.items).None?)
    ensures d.JArr? && r.Some? ==> r.value == JArr(RenamedItems(d.items).value)
    ensures d.JObj? && r.Some? ==> r.value.JObj?
  {
    match d
    case JArr(items) =>
      (match RenamedItems(items)
       case None => None
       case Some(ys) => Some(JArr(ys)))
    case JObj(_) =>
      var o := RenameId(d);
      (match Get(o.fields, "data")
       case Some(JArr(xs)) =>
         (match RenamedItems(xs)
          case None => None
          case Some(ys) => Some(JObj(Set(o.fields, "data", JArr(ys)))))
       case _ => Some(o))
    case _ => Some(d)
  }

  /** On an object body: `_id` is renamed, a nested `data` array has its
      elements renamed, and every other key keeps its value. */
  lemma NormalisedObject(d: Json)
    requires d.JObj? && Normalised(d).Some?
    ensures var e := Normalised(d).value.fields;
            && (Get(d.fields, "_id").Some? && Truthy(Get(d.fields, "_id").value) ==>
                  Get(e, "id") == Get(d.fields, "_id") && Get(e, "_id").None?)
            && (forall k :: k != "id" && k != "_id" && k != "data" ==> Get(e, k) == Get(d.fields, k))
            && (match Get(d.fields, "data")
                case Some(JArr(xs)) => Get(e, "data") == Some(JArr(RenamedItems(xs).value))
                case _ => Get(e, "data") == Get(d.fields, "data"))
  {
  }


  /** Writing back the value a key already has leaves the object as it was. */
  lemma {:induction false} SetExisting(fields: seq<(string, Json)>, k: string, v: Json)
    requires Get(fields, k) == Some(v)
    ensures Set(fields, k, v) == fields
    decreases |fields|
  {
    if fields[0].0 != k {
      SetExisting(fields[1..], k, v);
    }
  }

  /** Normalising a normalised body changes nothing. */
  lemma NormalisedIdempotent(d: Json)
    requires Normalised(d).Some?
    ensures Normalised(Normalised(d).value) == Normalised(d)
  {
    match d
    case JArr(items) =>
      RenamedItemsIdempotent(items);
    case JObj(_) =>
      var o := RenameId(d);
      match Get(o.fields, "data") {
        case Some(JArr(xs)) =>
          var ys := RenamedItems(xs).value;
          var e := JObj(Set(o.fields, "data", JArr(ys)));
          assert RenameId(e) == e;
          RenamedItemsIdempotent(xs);
          SetExisting(e.fields, "data", JArr(ys));
        case _ =>
          RenameIdIdempotent(d);
      }
    case _ =>
  }

  /** A null element makes the array body's interceptor throw. */
  lemma NullItemThrows()
    ensures Normalised(JArr([JObj([("_id", JStr("a"))]), JNull])).None?
  {
    assert JArr([JObj([("_id", JStr("a"))]), JNull]).items[1].JNull?;
  }

  /** The received response; the interceptor rewrites its body in place. */
  class Response {
    var data: Json

    constructor(body: Json)
      ensures data == body
    {
      data := body;
    }

    /** The success interceptor. `thrown` means the TypeError escaped and
        the response never reaches the caller. */
    method Intercept() returns (thrown: bool)
      modifies this
      ensures thrown <==> Normalised(old(data)).None?
      ensures !thrown ==> data == Normalised(old(data)).value
    {
      var d := data;
      if d.JObj? {
        var id := Get(d.fields, "_id");
        if id.Some? && Truthy(id.value) {
          data := JObj(Remove(Set(d.fields, "id", id.value), "_id"));
        }
        assert data == RenameId(d);
      }
      if data.JArr? {
        var ys := RenameEach(data.items);
        if ys.None? {
          return true;
        }
        data := JArr(ys.value);
      }
      if data.JObj? {
        var inner := Get(data.fields, "data");
        if inner.Some? && inner.value.JArr? {
          var ys := RenameEach(inner.value.items);
          if ys.None? {
            return true;
          }
          data := JObj(Set(data.fields, "data", JArr(ys.value)));
        }
      }
      thrown := false;
    }
  }

  /** The message of one entry of `errors`: `err.message` of an object;
      undefined, which `join` writes as "", on anything else; null throws. */
  function EntryMessage(e: Json): (r: Option<string>)
    ensures r.None? <==> e.JNull?
    ensures e.JObj? && Get(e.fields, "message").Some? && Get(e.fields, "message").value.JStr? ==>
              r == Some(Get(e.fields, "message").value.s)
  {
    match e
    case JNull => None
    case JObj(fields) =>
      (match Get(fields, "message")
       case None => Some("")
       case Some(m) => Some(JoinText(m)))
    case _ => Some("")
  }

  /** `Object.values(errors || {})`: the values of an object, the elements
      of an array, one single-character string per character of a string,
      and nothing for other values. */
  function ErrorValues(errors: Option<Json>): (vs: seq<Json>)
    ensures errors.None? || !Truthy(errors.value) ==> vs == []
    ensures errors.Some? && errors.value.JObj? ==>
              |vs| == |errors.value.fields| && forall i :: 0 <= i < |vs| ==> vs[i] == errors.value.fields[i].1
  {
    match errors
    case None => []
    case Some(JObj(fields)) => seq(|fields|, i requires 0 <= i < |fields| => fields[i].1)
    case Some(JArr(items)) => items
    case Some(JStr(s)) => seq(|s|, i requires 0 <= i < |s| => JStr([s[i]]))
    case Some(_) => []
  }

  /** `.map(err => err.message).join(', ')`, or None when an entry is null. */
  function ValidationText(vs: seq<Json>): (r: Option<string>)
    ensures r.None? <==> exists i :: 0 <= i < |vs| && vs[i].JNull?
    ensures r.Some? ==> r.value == Join(seq(|vs|, i requires 0 <= i < |vs| => EntryMessage(vs[i]).value), ", ")
  {
    if exists i :: 0 <= i < |vs| && vs[i].JNull? then None
    else Some(Join(seq(|vs|, i requires 0 <= i < |vs| => EntryMessage(vs[i]).value), ", "))
  }

  const DuplicateMessage: string := "A record with this information already exists"

  /** The failure interceptor's message for an error whose response body is
      `data` (None when there is no response or no body). Only an object
      body has a `code` or a `name`. */
  function MappedMessage(message: string, data: Option<Json>): (r: Option<string>)
    ensures data.None? || !data.value.JObj? ==> r == Some(message)
    ensures data.Some? && data.value.JObj? && Get(data.value.fields, "code") == Some(JNum(11000)) ==>
              r == Some(DuplicateMessage)
    ensures data.Some? && data.value.JObj? && Get(data.value.fields, "code") != Some(JNum(11000))
              && Get(data.value.fields, "name") == Some(JStr("ValidationError")) ==>
              r == ValidationText(ErrorValues(Get(data.value.fields, "errors")))
    ensures data.Some? && data.value.JObj? && Get(data.value.fields, "code") != Some(JNum(11000))
              && Get(data.value.fields, "name") != Some(JStr("ValidationError")) ==>
              r == Some(message)
  {
    match data
    case Some(JObj(fields)) =>
      if Get(fields, "code") == Some(JNum(11000)) then Some(DuplicateMessage)
      else if Get(fields, "name") == Some(JStr("ValidationError")) then ValidationText(ErrorValues(Get(fields, "errors")))
      else Some(message)
    case _ => Some(message)
  }

  /** A Mongoose validation error with two failing paths reads "a, b". */
  lemma ValidationExample(message: string)
    ensures var errs := JObj([("plate", JObj([("message", JStr("a"))])), ("size", JObj([("message", JStr("b"))]))]);
            MappedMessage(message, Some(JObj([("name", JStr("ValidationError")), ("errors", errs)]))) == Some("a, b")
  {
    var errs := JObj([("plate", JObj([("message", JStr("a"))])), ("size", JObj([("message", JStr("b"))]))]);
    ValidationBodyReads(errs);
    var vs := ErrorValues(Some(errs));
    assert vs == [JObj([("message", JStr("a"))]), JObj([("message", JStr("b"))])];
    TwoMessagesJoined();
  }

  /** The example body has no `code`, is named a ValidationError and carries `errs`. */
  lemma ValidationBodyReads(errs: Json)
    ensures var body := [("name", JStr("ValidationError")), ("errors", errs)];
            && Get(body, "code").None? && Get(body, "name") == Some(JStr("ValidationError"))
            && Get(body, "errors") == Some(errs)
  {
    var body := [("name", JStr("ValidationError")), ("errors", errs)];
    assert body == [("name", JStr("ValidationError"))] + [("errors", errs)];
    GetCons(("name", JStr("ValidationError")), [("errors", errs)], "code");
    GetCons(("errors", errs), [], "code");
    GetCons(("name", JStr("ValidationError")), [("errors", errs)], "errors");
    GetCons(("errors", errs), [], "errors");
  }

  /** Two entries with messages "a" and "b" join to "a, b". */
  lemma TwoMessagesJoined()
    ensures ValidationText([JObj([("message", JStr("a"))]), JObj([("message", JStr("b"))])]) == Some("a, b")
  {
    var vs := [JObj([("message", JStr("a"))]), JObj([("message", JStr("b"))])];
    assert seq(|vs|, i requires 0 <= i < |vs| => EntryMessage(vs[i]).value) == ["a", "b"] by {
      assert EntryMessage(vs[0]) == Some("a");
      assert EntryMessage(vs[1]) == Some("b");
    }
    assert Join(["a", "b"], ", ") == "a, b" by {
      assert ["a", "b"][1..] == ["b"];
      assert Join(["a", "b"], ", ") == "a" + ", " + "b";
    }
  }


  /** The duplicate-key code takes precedence over the error's name. */
  lemma DuplicateCodeFirst(message: string, fields: seq<(string, Json)>)
    requires Get(fields, "code") == Some(JNum(11000))
    ensures MappedMessage(message, Some(JObj(fields))) == Some(DuplicateMessage)
  {
  }

  /** The failed request; the interceptor overwrites its message. */
  class RequestFailure {
    var message: string
    const body: Option<Json>

    constructor(message0: string, body0: Option<Json>)
      ensures message == message0 && body == body0
    {
      message := message0;
      body := body0;
    }

    /** The failure interceptor. `thrown` means a TypeError replaced the
        error. */
    method Intercept() returns (thrown: bool)
      modifies this
      ensures thrown <==> MappedMessage(old(message), body).None?
      ensures !thrown ==> message == MappedMessage(old(message), body).value
    {
      var m := MappedMessage(message, body);
      if m.None? {
        return true;
      }
      message := m.value;
      thrown := false;
    }
  }
}
