/** A record on the wire is a run of fixed-width signed fields, each written
    big-endian one after the other. Reading one back field by field stops at
    the first field the input is too short for. */
module Fields {
  import opened Wire

  /** Every width is positive and every value fits its width. */
  predicate Fits(ws: seq<nat>, vs: seq<int>)
  {
    |ws| == |vs| && forall i | 0 <= i < |ws| :: ws[i] > 0 && InSigned(ws[i], vs[i])
  }

  predicate Positive(ws: seq<nat>)
  {
    forall i | 0 <= i < |ws| :: ws[i] > 0
  }

  function Total(ws: seq<nat>): nat
  {
    if ws == [] then 0 else ws[0] + Total(ws[1..])
  }

  /** The bytes of the fields, in order. */
  function EncodeFields(ws: seq<nat>, vs: seq<int>): (s: seq<uint8>)
    requires Fits(ws, vs)
    ensures |s| == Total(ws)
    decreases |ws|
  {
    if ws == [] then []
    else
      assert Fits(ws[1..], vs[1..]) by {
        forall i | 0 <= i < |ws| - 1 ensures ws[1..][i] > 0 && InSigned(ws[1..][i], vs[1..][i]) {
          assert ws[1..][i] == ws[i + 1] && vs[1..][i] == vs[i + 1];
        }
      }
      EncodeSigned(ws[0], vs[0]) + EncodeFields(ws[1..], vs[1..])
  }

  /** The values read so far and the bytes left after them. */
  datatype Fetch = Fetch(values: seq<int>, rest: seq<uint8>)

  /** Sequential reads of fields of the given widths: as many as the input
      holds, each one's value and the bytes after the last one read. */
  function ReadFields(ws: seq<nat>, s: seq<uint8>): (r: Fetch)
    requires Positive(ws)
    ensures |r.values| <= |ws|
    decreases |ws|
  {
    if ws == [] || |s| < ws[0] then Fetch([], s)
    else
      assert Positive(ws[1..]) by {
        forall i | 0 <= i < |ws| - 1 ensures ws[1..][i] > 0 { assert ws[1..][i] == ws[i + 1]; }
      }
      var t := ReadFields(ws[1..], s[ws[0]..]);
      Fetch([DecodeSigned(s[..ws[0]])] + t.values, t.rest)
  }

  /** Whether every field was read. */
  predicate Complete(ws: seq<nat>, s: seq<uint8>)
    requires Positive(ws)
  {
    |ReadFields(ws, s).values| == |ws|
  }

  lemma FitsTail(ws: seq<nat>, vs: seq<int>)
    requires Fits(ws, vs) && ws != []
    ensures Fits(ws[1..], vs[1..]) && ws[0] > 0 && InSigned(ws[0], vs[0])
  {
    forall i | 0 <= i < |ws| - 1 ensures ws[1..][i] > 0 && InSigned(ws[1..][i], vs[1..][i]) {
      assert ws[1..][i] == ws[i + 1] && vs[1..][i] == vs[i + 1];
    }
  }

  lemma PositiveTail(ws: seq<nat>)
    requires Positive(ws) && ws != []
    ensures Positive(ws[1..]) && ws[0] > 0
  {
    forall i | 0 <= i < |ws| - 1 ensures ws[1..][i] > 0 { assert ws[1..][i] == ws[i + 1]; }
  }

  /** The first field of a record, then the others. */
  lemma EncodeFieldsHead(ws: seq<nat>, vs: seq<int>)
    requires Fits(ws, vs) && ws != []
    ensures Fits(ws[1..], vs[1..])
    ensures EncodeFields(ws, vs) == EncodeSigned(ws[0], vs[0]) + EncodeFields(ws[1..], vs[1..])
  {
    FitsTail(ws, vs);
  }

  /** The first two fields of a record, then the others. */
  lemma EncodeFieldsTwo(a: nat, b: nat, ws: seq<nat>, vs: seq<int>)
    requires Fits([a, b] + ws, vs)
    ensures Fits(ws, vs[2..])
    ensures EncodeFields([a, b] + ws, vs) == EncodeSigned(a, vs[0]) + EncodeSigned(b, vs[1]) + EncodeFields(ws, vs[2..])
    ensures Total([a, b] + ws) == a + b + Total(ws)
  {
    var all := [a, b] + ws;
    assert all[1..] == [b] + ws && all[1..][1..] == ws && vs[1..][1..] == vs[2..];
    EncodeFieldsHead(all, vs);
    EncodeFieldsHead(all[1..], vs[1..]);
  }

  lemma Regroup<T>(a: seq<T>, b: seq<T>, c: seq<T>)
    ensures a + b + c == a + (b + c)
  {
  }

  /** A read takes the first field when the input holds it, and stops with
      nothing read when it does not. */
  lemma ReadFieldsHead(ws: seq<nat>, s: seq<uint8>)
    requires Positive(ws) && ws != []
    ensures Positive(ws[1..])
    ensures |s| < ws[0] ==> ReadFields(ws, s) == Fetch([], s)
    ensures |s| >= ws[0] ==> var t := ReadFields(ws[1..], s[ws[0]..]);
      ReadFields(ws, s) == Fetch([DecodeSigned(s[..ws[0]])] + t.values, t.rest)
  {
    PositiveTail(ws);
  }

  /** One step of a read: the first field's bytes, then the rest. */
  lemma ReadFieldsStep(ws: seq<nat>, head: seq<uint8>, tail: seq<uint8>)
    requires Positive(ws) && ws != [] && |head| == ws[0]
    ensures Positive(ws[1..])
    ensures var t := ReadFields(ws[1..], tail);
      ReadFields(ws, head + tail) == Fetch([DecodeSigned(head)] + t.values, t.rest)
  {
    PositiveTail(ws);
    assert (head + tail)[..ws[0]] == head && (head + tail)[ws[0]..] == tail;
  }

  /** Reading the encoding of a record returns every value and leaves the
      bytes after it. */
  lemma {:induction false} ReadEncodedFields(ws: seq<nat>, vs: seq<int>, rest: seq<uint8>)
    requires Fits(ws, vs)
    ensures Positive(ws)
    ensures ReadFields(ws, EncodeFields(ws, vs) + rest) == Fetch(vs, rest)
    decreases |ws|
  {
    if ws != [] {
      FitsTail(ws, vs);
      EncodeFieldsHead(ws, vs);
      var head := EncodeSigned(ws[0], vs[0]);
      var body := EncodeFields(ws[1..], vs[1..]);
      Regroup(head, body, rest);
      ReadFieldsStep(ws, head, body + rest);
      DecodeEncodeSigned(ws[0], vs[0]);
      ReadEncodedFields(ws[1..], vs[1..], rest);
      assert [vs[0]] + vs[1..] == vs;
    }
  }

  /** A read gets every field exactly when the input holds their total width,
      and then it consumes exactly that many bytes; a short input yields fewer
      values, each of which fits its width, and whatever bytes were too few
      for the next field. */
  lemma {:induction false} ReadFieldsShape(ws: seq<nat>, s: seq<uint8>)
    requires Positive(ws)
    ensures var r := ReadFields(ws, s);
      (|r.values| == |ws| <==> |s| >= Total(ws)) &&
      (|r.values| == |ws| ==> r.rest == s[Total(ws)..]) &&
      Fits(ws[..|r.values|], r.values) &&
      (|r.values| < |ws| ==> |r.rest| < ws[|r.values|])
    decreases |ws|
  {
    if ws != [] {
      PositiveTail(ws);
      var r := ReadFields(ws, s);
      if |s| >= ws[0] {
        var q := s[ws[0]..];
        ReadFieldsShape(ws[1..], q);
        var t := ReadFields(ws[1..], q);
        assert r.values == [DecodeSigned(s[..ws[0]])] + t.values;
        var k := |t.values|;
        forall i | 0 <= i < k + 1
          ensures ws[..k + 1][i] > 0 && InSigned(ws[..k + 1][i], r.values[i])
        {
          if i > 0 { assert ws[..k + 1][i] == ws[1..][..k][i - 1]; }
        }
        if k == |ws| - 1 {
          assert s[Total(ws)..] == q[Total(ws[1..])..];
        }
      } else {
        assert Fits(ws[..0], []);
      }
    }
  }

  lemma {:induction false} TotalAppend(a: seq<nat>, b: seq<nat>)
    ensures Total(a + b) == Total(a) + Total(b)
    decreases |a|
  {
    if a != [] {
      assert (a + b)[0] == a[0] && (a + b)[1..] == a[1..] + b;
      TotalAppend(a[1..], b);
    } else {
      assert a + b == b;
    }
  }

  lemma PositiveAppend(a: seq<nat>, b: seq<nat>)
    requires Positive(a) && Positive(b)
    ensures Positive(a + b)
  {
    forall i | 0 <= i < |a + b| ensures (a + b)[i] > 0 {
      if i >= |a| { assert (a + b)[i] == b[i - |a|]; }
    }
  }

  /** Reading two records in a row is reading the fields of both: the second
      starts only once the first is complete. */
  lemma {:induction false} ReadFieldsAppend(a: seq<nat>, b: seq<nat>, s: seq<uint8>)
    requires Positive(a) && Positive(b)
    ensures Positive(a + b)
    ensures var r := ReadFields(a, s);
      ReadFields(a + b, s) ==
        if |r.values| < |a| then r
        else var t := ReadFields(b, r.rest); Fetch(r.values + t.values, t.rest)
    decreases |a|
  {
    PositiveAppend(a, b);
    if a == [] {
      assert a + b == b;
    } else {
      PositiveTail(a);
      assert (a + b)[0] == a[0] && (a + b)[1..] == a[1..] + b;
      if |s| >= a[0] {
        var q := s[a[0]..];
        ReadFieldsAppend(a[1..], b, q);
        var r1 := ReadFields(a[1..], q);
        var ra := ReadFields(a, s);
        assert ra == Fetch([DecodeSigned(s[..a[0]])] + r1.values, r1.rest);
        if |r1.values| == |a| - 1 {
          var t := ReadFields(b, r1.rest);
          Regroup([DecodeSigned(s[..a[0]])], r1.values, t.values);
        }
      }
    }
  }

  // ---- Field-by-field reads into a record's fields ----

  /** The fields of a record while a read is filling them: their values, the
      bytes not read yet, and whether every get so far succeeded. */
  datatype Progress = Progress(values: seq<int>, rest: seq<uint8>, ok: bool)

  /** The fields from index i replaced by vs. */
  function OverwriteAt(prior: seq<int>, i: nat, vs: seq<int>): (r: seq<int>)
    requires i + |vs| <= |prior|
    ensures |r| == |prior|
  {
    prior[..i] + vs + prior[i + |vs|..]
  }

  /** Overwriting fields of the first of three records leaves the other two
      alone. */
  lemma OverwriteFirst(x: seq<int>, y: seq<int>, z: seq<int>, vs: seq<int>)
    requires |vs| <= |x|
    ensures OverwriteAt(x + y + z, 0, vs) == OverwriteAt(x, 0, vs) + y + z
  {
    var t := x + y + z;
    assert t[..0] == x[..0];
    assert t[|vs|..] == x[|vs|..] + y + z;
  }

  /** Overwriting fields of the last of three records leaves the other two
      alone. */
  lemma OverwriteLast(x: seq<int>, y: seq<int>, z: seq<int>, vs: seq<int>)
    requires |vs| <= |z|
    ensures OverwriteAt(x + y + z, |x| + |y|, vs) == x + y + OverwriteAt(z, 0, vs)
  {
    var t := x + y + z;
    assert t[..|x| + |y|] == x + y;
    assert t[|x| + |y| + |vs|..] == z[|vs|..];
  }

  /** Overwriting every field from the start replaces the whole record. */
  lemma OverwriteWhole(prior: seq<int>, vs: seq<int>)
    requires |vs| == |prior|
    ensures OverwriteAt(prior, 0, vs) == vs
  {
    assert prior[..0] + vs + prior[|vs|..] == vs;
  }

  /** Overwriting fields inside a longer record leaves the fields around
      them alone. */
  lemma OverwriteInside(a: seq<int>, b: seq<int>, c: seq<int>, vs: seq<int>)
    requires |vs| <= |b|
    ensures OverwriteAt(a + b + c, |a|, vs) == a + OverwriteAt(b, 0, vs) + c
  {
    var x := a + b + c;
    assert x[..|a|] == a;
    assert x[|a| + |vs|..] == b[|vs|..] + c;
  }

  /** One get of an n-byte field into field i: once a get has failed nothing
      else happens; a get that lacks bytes fails and moves nothing. */
  function Take(p: Progress, i: nat, n: nat): (q: Progress)
    requires n > 0 && i < |p.values|
    ensures |q.values| == |p.values|
  {
    if !p.ok then p
    else if |p.rest| < n then Progress(p.values, p.rest, false)
    else Progress(p.values[i := DecodeSigned(p.rest[..n])], p.rest[n..], true)
  }

  /** Gets of fields of widths ws into fields i, i + 1, ... in turn. */
  function Takes(p: Progress, ws: seq<nat>, i: nat): (q: Progress)
    requires Positive(ws) && i + |ws| <= |p.values|
    ensures |q.values| == |p.values|
    decreases |ws|
  {
    if ws == [] then p
    else
      PositiveTail(ws);
      Takes(Take(p, i, ws[0]), ws[1..], i + 1)
  }

  /** Gets after a failure change nothing. */
  lemma {:induction false} TakesFailed(p: Progress, ws: seq<nat>, i: nat)
    requires Positive(ws) && i + |ws| <= |p.values| && !p.ok
    ensures Takes(p, ws, i) == p
    decreases |ws|
  {
    if ws != [] {
      PositiveTail(ws);
      TakesFailed(Take(p, i, ws[0]), ws[1..], i + 1);
    }
  }

  /** Field-by-field gets are a ReadFields of the bytes: the fields read are
      replaced, in order, by the values read, the others keep their values,
      and the gets all succeed exactly when every field was read. */
  lemma {:induction false} TakesReadFields(vals: seq<int>, s: seq<uint8>, ws: seq<nat>, i: nat)
    requires Positive(ws) && i + |ws| <= |vals|
    ensures var f := ReadFields(ws, s);
      Takes(Progress(vals, s, true), ws, i) == Progress(OverwriteAt(vals, i, f.values), f.rest, |f.values| == |ws|)
    decreases |ws|
  {
    if ws == [] {
      assert OverwriteAt(vals, i, []) == vals;
    } else {
      PositiveTail(ws);
      var p := Take(Progress(vals, s, true), i, ws[0]);
      if |s| < ws[0] {
        TakesFailed(p, ws[1..], i + 1);
        assert OverwriteAt(vals, i, []) == vals;
      } else {
        var v := DecodeSigned(s[..ws[0]]);
        TakesReadFields(vals[i := v], s[ws[0]..], ws[1..], i + 1);
        var t := ReadFields(ws[1..], s[ws[0]..]);
        OverwriteStep(vals, i, v, t.values);
      }
    }
  }

  /** Overwriting field i and then the fields after it is overwriting from
      field i. */
  lemma OverwriteStep(vals: seq<int>, i: nat, v: int, ts: seq<int>)
    requires i + 1 + |ts| <= |vals|
    ensures OverwriteAt(vals[i := v], i + 1, ts) == OverwriteAt(vals, i, [v] + ts)
  {
    var a, b := OverwriteAt(vals[i := v], i + 1, ts), OverwriteAt(vals, i, [v] + ts);
    assert forall k | 0 <= k < |a| :: a[k] == b[k];
  }
}
