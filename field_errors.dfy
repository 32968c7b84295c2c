/**
 * Turning a schema's issue list into the per-field error map the forms display: each
 * issue is filed under the first element of its path, a later issue for the same
 * field replaces an earlier one, and paths outside the form's fields are ignored.
 */
module FieldErrors {
  /** A validation issue: the first element of its path and its message. */
  datatype Issue = Issue(path: string, message: string)

  /** The map after filing `issues` in order. */
  function ErrorMap(issues: seq<Issue>, fields: set<string>): map<string, string>
  {
    if |issues| == 0 then map[]
    else
      var last := issues[|issues| - 1];
      var before := ErrorMap(issues[..|issues| - 1], fields);
      if last.path in fields then before[last.path := last.message] else before
  }

  /** Issue `k` is the last one filed under `f`. */
  predicate IsLastFor(issues: seq<Issue>, f: string, k: int) {
    0 <= k < |issues| && issues[k].path == f && forall j :: k < j < |issues| ==> issues[j].path != f
  }

  /** A field has an entry exactly when it is one of the form's fields and some issue names
      it; the entry is the message of the last such issue. */
  lemma ErrorMapSpec(issues: seq<Issue>, fields: set<string>, f: string)
    ensures f in ErrorMap(issues, fields) <==> f in fields && exists k :: 0 <= k < |issues| && issues[k].path == f
    ensures forall k :: IsLastFor(issues, f, k) && f in fields ==> ErrorMap(issues, fields)[f] == issues[k].message
  {
    ErrorMapDomain(issues, fields, f);
    forall k | IsLastFor(issues, f, k) && f in fields ensures ErrorMap(issues, fields)[f] == issues[k].message {
      ErrorMapLast(issues, fields, f, k);
    }
  }

  lemma {:induction false} ErrorMapDomain(issues: seq<Issue>, fields: set<string>, f: string)
    ensures f in ErrorMap(issues, fields) <==> f in fields && exists k :: 0 <= k < |issues| && issues[k].path == f
  {
    if |issues| > 0 {
      var n := |issues| - 1;
      var init := issues[..n];
      ErrorMapDomain(init, fields, f);
      if exists k :: 0 <= k < |init| && init[k].path == f {
        var k :| 0 <= k < |init| && init[k].path == f;
        assert issues[k].path == f;
      }
      if issues[n].path != f && exists k :: 0 <= k < |issues| && issues[k].path == f {
        var k :| 0 <= k < |issues| && issues[k].path == f;
        assert init[k].path == f;
      }
    }
  }

  lemma {:induction false} ErrorMapLast(issues: seq<Issue>, fields: set<string>, f: string, k: int)
    requires IsLastFor(issues, f, k) && f in fields
    ensures f in ErrorMap(issues, fields) && ErrorMap(issues, fields)[f] == issues[k].message
  {
    var n := |issues| - 1;
    if k < n {
      var init := issues[..n];
      assert IsLastFor(init, f, k);
      ErrorMapLast(init, fields, f, k);
    }
  }

  /** Issues naming other fields leave `f`'s entry as it was. */
  lemma {:induction false} IgnoresOthers(issues: seq<Issue>, post: seq<Issue>, fields: set<string>, f: string)
    requires forall k :: 0 <= k < |post| ==> post[k].path != f
    ensures f in ErrorMap(issues + post, fields) <==> f in ErrorMap(issues, fields)
    ensures f in ErrorMap(issues, fields) ==> ErrorMap(issues + post, fields)[f] == ErrorMap(issues, fields)[f]
  {
    if |post| == 0 {
      assert issues + post == issues;
    } else {
      var s := issues + post;
      var init := post[..|post| - 1];
      assert s[..|s| - 1] == issues + init;
      assert s[|s| - 1] == post[|post| - 1];
      IgnoresOthers(issues, init, fields, f);
    }
  }

  /** A field no issue names has no entry. */
  lemma AbsentField(issues: seq<Issue>, fields: set<string>, f: string)
    requires forall k :: 0 <= k < |issues| ==> issues[k].path != f
    ensures f !in ErrorMap(issues, fields)
  {
    IgnoresOthers([], issues, fields, f);
    assert [] + issues == issues;
  }

  /** The issues of one field `f` sit together in `mid`, with no other issue naming `f`:
      the field has an entry exactly when `mid` is non-empty, and it is `mid`'s last message. */
  lemma FieldBlock(pre: seq<Issue>, mid: seq<Issue>, post: seq<Issue>, fields: set<string>, f: string)
    requires f in fields
    requires forall k :: 0 <= k < |mid| ==> mid[k].path == f
    requires forall k :: 0 <= k < |pre| ==> pre[k].path != f
    requires forall k :: 0 <= k < |post| ==> post[k].path != f
    ensures var e := ErrorMap(pre + mid + post, fields);
            (f in e <==> |mid| > 0) && (|mid| > 0 ==> e[f] == mid[|mid| - 1].message)
  {
    var s := pre + mid;
    IgnoresOthers(s, post, fields, f);
    if |mid| > 0 {
      assert s[|s| - 1] == mid[|mid| - 1];
    } else {
      assert s == [] + pre;
      IgnoresOthers([], pre, fields, f);
    }
  }

  /** No issue, no errors. */
  lemma NoIssuesNoErrors(fields: set<string>)
    ensures ErrorMap([], fields) == map[]
  {
  }

  /** The `forEach` that fills the map. */
  method CollectErrors(issues: seq<Issue>, fields: set<string>) returns (errors: map<string, string>)
    ensures errors == ErrorMap(issues, fields)
  {
    errors := map[];
    var i := 0;
    while i < |issues|
      invariant 0 <= i <= |issues|
      invariant errors == ErrorMap(issues[..i], fields)
    {
      assert issues[..i + 1][..i] == issues[..i];
      if issues[i].path in fields {
        errors := errors[issues[i].path := issues[i].message];
      }
      i := i + 1;
    }
    assert issues[..i] == issues;
  }
}
