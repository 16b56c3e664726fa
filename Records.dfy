/** The two delimited text payloads: the life-bar graph (`time|hp,` records) and the
    decompressed action stream (`time|x|y|keys,` records). The decoders below read a
    payload from its front; the methods at the end walk the same bytes with a cursor
    into an array, as the source does. */
module Records {
  import opened Bytes
  import opened OsrTypes
  import opened Text

  /** A value taken from the front of a text, and the text that follows it. */
  datatype Cut<+T> = Cut(value: T, rest: seq<byte>)

  /** `done` followed by the records of `r`, or the error of `r`. */
  function Prepend<T>(done: seq<T>, r: Result<seq<T>>): Result<seq<T>>
  {
    match r
    case Ok(rest) => Ok(done + rest)
    case Err(e) => Err(e)
  }

  /** Prepending twice is prepending the concatenation. */
  lemma PrependTwice<T>(a: seq<T>, b: seq<T>, r: Result<seq<T>>)
    ensures Prepend(a, Prepend(b, r)) == Prepend(a + b, r)
  {
    if r.Ok? {
      assert a + (b + r.value) == (a + b) + r.value;
    }
  }

  // ---- One field, one record ----

  /** The field at the front of `t`, ended by the first `d`, and the text after that
      `d`. A text without `d` is a MalformedRecord. */
  function Field(t: seq<byte>, d: byte): (r: Result<Cut<seq<byte>>>)
    ensures r.Ok? ==> |r.value.value| + 1 + |r.value.rest| == |t|
    ensures r.Err? ==> r.error == MalformedRecord
  {
    if t == [] then Err(MalformedRecord)
    else if t[0] == d then Ok(Cut([], t[1..]))
    else
      match Field(t[1..], d)
      case Err(e) => Err(e)
      case Ok(f) => Ok(Cut([t[0]] + f.value, f.rest))
  }

  /** Field cuts at the position FindIn reports (the scan the source performs). */
  lemma {:induction false} FieldAtFind(t: seq<byte>, d: byte)
    ensures var k := FindIn(t, d);
      Field(t, d) == if k == |t| then Err(MalformedRecord) else Ok(Cut(t[..k], t[k + 1..]))
  {
    if t != [] && t[0] != d {
      FieldAtFind(t[1..], d);
      var k := FindIn(t[1..], d);
      if k < |t[1..]| {
        assert [t[0]] + t[1..][..k] == t[..k + 1];
        assert t[1..][k + 1..] == t[k + 2..];
      }
    }
  }

  /** What Field cuts off is a text without `d`, then `d`, then the rest. */
  lemma {:induction false} FieldSplits(t: seq<byte>, d: byte)
    requires Field(t, d).Ok?
    ensures t == Field(t, d).value.value + [d] + Field(t, d).value.rest
    ensures forall k :: 0 <= k < |Field(t, d).value.value| ==> Field(t, d).value.value[k] != d
  {
    if t[0] != d {
      FieldSplits(t[1..], d);
      assert t == [t[0]] + t[1..];
    }
  }

  /** A field text without `d`, then `d`: Field cuts exactly that field. */
  lemma {:induction false} FieldText(w: seq<byte>, d: byte, u: seq<byte>)
    requires forall k :: 0 <= k < |w| ==> w[k] != d
    ensures Field(w + [d] + u, d) == Ok(Cut(w, u))
  {
    if w == [] {
      assert (w + [d] + u)[1..] == u;
    } else {
      assert (w + [d] + u)[1..] == w[1..] + [d] + u;
      FieldText(w[1..], d, u);
      assert [w[0]] + w[1..] == w;
    }
  }

  /** `w` and the fields of `r`, or the error of `r`. */
  function PrependField(w: seq<byte>, r: Result<Cut<seq<seq<byte>>>>): Result<Cut<seq<seq<byte>>>>
  {
    match r
    case Ok(c) => Ok(Cut([w] + c.value, c.rest))
    case Err(e) => Err(e)
  }

  /** The fields at the front of `t` ended, one after the other, by the delimiters `ds`. */
  function Fields(t: seq<byte>, ds: seq<byte>): (r: Result<Cut<seq<seq<byte>>>>)
    ensures r.Ok? ==> |r.value.value| == |ds| && |r.value.rest| + |ds| <= |t|
    ensures r.Err? ==> r.error == MalformedRecord
    decreases |ds|
  {
    if ds == [] then Ok(Cut([], t))
    else
      match Field(t, ds[0])
      case Err(e) => Err(e)
      case Ok(f) => PrependField(f.value, Fields(f.rest, ds[1..]))
  }

  /** Fields, one field at a time. */
  lemma FieldsCons(t: seq<byte>, d: byte, ds: seq<byte>, w: seq<byte>, u: seq<byte>)
    requires Field(t, d) == Ok(Cut(w, u))
    ensures Fields(t, [d] + ds) == PrependField(w, Fields(u, ds))
  {
    assert ([d] + ds)[1..] == ds;
  }

  lemma FieldsConsErr(t: seq<byte>, d: byte, ds: seq<byte>)
    requires Field(t, d).Err?
    ensures Fields(t, [d] + ds).Err?
  {
  }

  /** A life-bar record is `time|hp,`. */
  const PointDelimiters: seq<byte> := [BAR, COMMA]

  /** An action record is `time|x|y|keys,`. */
  const FrameDelimiters: seq<byte> := [BAR, BAR, BAR, COMMA]

  /** The life-bar record at the front of `t`: its time (read by atoi) and its hp. */
  function PointRecord(t: seq<byte>): (r: Result<Cut<LifeBarPoint>>)
    ensures r.Ok? ==> |r.value.rest| + 2 <= |t|
    ensures r.Err? ==> r.error == MalformedRecord
  {
    match Fields(t, PointDelimiters)
    case Err(e) => Err(e)
    case Ok(fs) => Ok(Cut(LifeBarPoint(Atoi(fs.value[0]), fs.value[1]), fs.rest))
  }

  /** The action record at the front of `t`: its time (read by atoll), x, y and keys
      (read by atoi). */
  function FrameRecord(t: seq<byte>): (r: Result<Cut<ReplayFrame>>)
    ensures r.Ok? ==> |r.value.rest| + 4 <= |t|
    ensures r.Err? ==> r.error == MalformedRecord
  {
    match Fields(t, FrameDelimiters)
    case Err(e) => Err(e)
    case Ok(fs) => Ok(Cut(ReplayFrame(Atoi(fs.value[0]), fs.value[1], fs.value[2], Atoi(fs.value[3])), fs.rest))
  }

  /** A life-bar record from the results of its two field scans. */
  lemma PointFromFields(t: seq<byte>, w: seq<byte>, t1: seq<byte>, hp: seq<byte>, u: seq<byte>)
    requires Field(t, BAR) == Ok(Cut(w, t1)) && Field(t1, COMMA) == Ok(Cut(hp, u))
    ensures PointRecord(t) == Ok(Cut(LifeBarPoint(Atoi(w), hp), u))
  {
    assert PointDelimiters == [BAR] + [COMMA];
    FieldsCons(t1, COMMA, [], hp, u);
    FieldsCons(t, BAR, [COMMA], w, t1);
  }

  /** A life-bar record whose first or second field scan fails. */
  lemma PointFieldsErr(t: seq<byte>)
    requires Field(t, BAR).Err? || Field(Field(t, BAR).value.rest, COMMA).Err?
    ensures PointRecord(t).Err?
  {
    assert PointDelimiters == [BAR] + [COMMA];
    if Field(t, BAR).Err? {
      FieldsConsErr(t, BAR, [COMMA]);
    } else {
      var f := Field(t, BAR).value;
      FieldsConsErr(f.rest, COMMA, []);
      FieldsCons(t, BAR, [COMMA], f.value, f.rest);
    }
  }

  /** An action record one of whose four field scans fails. */
  lemma FrameFieldsErr(t: seq<byte>)
    requires
      || Field(t, BAR).Err?
      || (var t1 := Field(t, BAR).value.rest;
          || Field(t1, BAR).Err?
          || (var t2 := Field(t1, BAR).value.rest;
              || Field(t2, BAR).Err?
              || Field(Field(t2, BAR).value.rest, COMMA).Err?))
    ensures FrameRecord(t).Err?
  {
    assert FrameDelimiters == [BAR] + ([BAR] + ([BAR] + [COMMA]));
    if Field(t, BAR).Err? {
      FieldsConsErr(t, BAR, [BAR] + ([BAR] + [COMMA]));
    } else {
      var f1 := Field(t, BAR).value;
      FieldsCons(t, BAR, [BAR] + ([BAR] + [COMMA]), f1.value, f1.rest);
      if Field(f1.rest, BAR).Err? {
        FieldsConsErr(f1.rest, BAR, [BAR] + [COMMA]);
      } else {
        var f2 := Field(f1.rest, BAR).value;
        FieldsCons(f1.rest, BAR, [BAR] + [COMMA], f2.value, f2.rest);
        if Field(f2.rest, BAR).Err? {
          FieldsConsErr(f2.rest, BAR, [COMMA]);
        } else {
          var f3 := Field(f2.rest, BAR).value;
          FieldsCons(f2.rest, BAR, [COMMA], f3.value, f3.rest);
          FieldsConsErr(f3.rest, COMMA, []);
        }
      }
    }
  }

  /** An action record from the results of its four field scans. */
  lemma FrameFromFields(t: seq<byte>, w: seq<byte>, t1: seq<byte>, x: seq<byte>, t2: seq<byte>,
                        y: seq<byte>, t3: seq<byte>, k: seq<byte>, u: seq<byte>)
    requires Field(t, BAR) == Ok(Cut(w, t1)) && Field(t1, BAR) == Ok(Cut(x, t2))
    requires Field(t2, BAR) == Ok(Cut(y, t3)) && Field(t3, COMMA) == Ok(Cut(k, u))
    ensures FrameRecord(t) == Ok(Cut(ReplayFrame(Atoi(w), x, y, Atoi(k)), u))
  {
    assert FrameDelimiters == [BAR] + ([BAR] + ([BAR] + [COMMA]));
    FieldsCons(t3, COMMA, [], k, u);
    FieldsCons(t2, BAR, [COMMA], y, t3);
    FieldsCons(t1, BAR, [BAR] + [COMMA], x, t2);
    FieldsCons(t, BAR, [BAR] + ([BAR] + [COMMA]), w, t1);
  }

  // ---- Whole payloads ----

  /** The life-bar records of payload `t`, in input order; decoding stops when the
      payload is used up. */
  function LifeBarOf(t: seq<byte>): (r: Result<seq<LifeBarPoint>>)
    ensures r.Ok? ==> 2 * |r.value| <= |t|
    ensures r.Err? ==> r.error == MalformedRecord
    decreases |t|
  {
    if t == [] then Ok([])
    else
      match PointRecord(t)
      case Err(e) => Err(e)
      case Ok(point) => Prepend([point.value], LifeBarOf(point.rest))
  }

  /** The action records of a decompressed stream `t`, in input order. */
  function FramesOf(t: seq<byte>): (r: Result<seq<ReplayFrame>>)
    ensures r.Ok? ==> 4 * |r.value| <= |t|
    ensures r.Err? ==> r.error == MalformedRecord
    decreases |t|
  {
    if t == [] then Ok([])
    else
      match FrameRecord(t)
      case Err(e) => Err(e)
      case Ok(frame) => Prepend([frame.value], FramesOf(frame.rest))
  }

  /** The last byte of a text that Field cuts is the last byte of the rest, or the
      delimiter when nothing follows it. */
  lemma {:induction false} FieldLast(t: seq<byte>, d: byte)
    requires Field(t, d).Ok?
    ensures var rest := Field(t, d).value.rest;
      t[|t| - 1] == if rest == [] then d else rest[|rest| - 1]
  {
    if t[0] != d {
      FieldLast(t[1..], d);
    }
  }

  /** A text that Fields cuts ends with the last delimiter, or with what follows. */
  lemma {:induction false} FieldsLast(t: seq<byte>, ds: seq<byte>)
    requires ds != [] && Fields(t, ds).Ok?
    ensures var rest := Fields(t, ds).value.rest;
      t[|t| - 1] == if rest == [] then ds[|ds| - 1] else rest[|rest| - 1]
    decreases |ds|
  {
    var f := Field(t, ds[0]).value;
    FieldLast(t, ds[0]);
    if |ds| > 1 {
      FieldsLast(f.rest, ds[1..]);
    }
  }

  lemma PointRecordLast(t: seq<byte>)
    requires PointRecord(t).Ok?
    ensures var rest := PointRecord(t).value.rest;
      t[|t| - 1] == if rest == [] then COMMA else rest[|rest| - 1]
  {
    FieldsLast(t, PointDelimiters);
  }

  lemma FrameRecordLast(t: seq<byte>)
    requires FrameRecord(t).Ok?
    ensures var rest := FrameRecord(t).value.rest;
      t[|t| - 1] == if rest == [] then COMMA else rest[|rest| - 1]
  {
    FieldsLast(t, FrameDelimiters);
  }

  /** The source reads up to a ',' for the last record too: a payload that decodes
      without error ends with a ','. */
  lemma {:induction false} LifeBarEndsWithComma(t: seq<byte>)
    requires t != [] && LifeBarOf(t).Ok?
    ensures t[|t| - 1] == COMMA
    decreases |t|
  {
    var rest := PointRecord(t).value.rest;
    PointRecordLast(t);
    if rest != [] {
      LifeBarEndsWithComma(rest);
    }
  }

  lemma {:induction false} FramesEndWithComma(t: seq<byte>)
    requires t != [] && FramesOf(t).Ok?
    ensures t[|t| - 1] == COMMA
    decreases |t|
  {
    var rest := FrameRecord(t).value.rest;
    FrameRecordLast(t);
    if rest != [] {
      FramesEndWithComma(rest);
    }
  }

  /** One step of each payload decoder: a record, then the records after it. */
  lemma LifeBarStep(t: seq<byte>, p: LifeBarPoint, u: seq<byte>)
    requires t != [] && PointRecord(t) == Ok(Cut(p, u))
    ensures LifeBarOf(t) == Prepend([p], LifeBarOf(u))
  {
  }

  lemma FramesStep(t: seq<byte>, f: ReplayFrame, u: seq<byte>)
    requires t != [] && FrameRecord(t) == Ok(Cut(f, u))
    ensures FramesOf(t) == Prepend([f], FramesOf(u))
  {
  }

  /** One frame read at `i`, as the action-record loop sees it: either the whole text
      fails with the frame's error, or the frames read so far grow by this one and the
      cursor moves on by at least 4 bytes. */
  lemma FrameReadOn(s: seq<byte>, i: nat, n: nat, r: Result<Read<ReplayFrame>>, done: seq<ReplayFrame>)
    requires i < n <= |s| && Agrees(r, FrameRecord(s[i..n]), s, n)
    ensures r.Err? ==> Prepend(done, FramesOf(s[i..n])) == Err(r.error)
    ensures r.Ok? ==> i + 4 <= r.value.next <= n
    ensures r.Ok? ==> Prepend(done, FramesOf(s[i..n])) == Prepend(done + [r.value.value], FramesOf(s[r.value.next..n]))
  {
    if r.Ok? {
      var f, next := r.value.value, r.value.next;
      assert FrameRecord(s[i..n]) == Ok(Cut(f, s[next..n]));
      FramesStep(s[i..n], f, s[next..n]);
      PrependTwice(done, [f], FramesOf(s[next..n]));
    }
  }

  // ---- The text the two decoders read back ----

  function PointText(p: LifeBarPoint): seq<byte>
  {
    IntText(p.time) + [BAR] + p.hp + [COMMA]
  }

  function LifeBarText(ps: seq<LifeBarPoint>): seq<byte>
  {
    if ps == [] then [] else PointText(ps[0]) + LifeBarText(ps[1..])
  }

  /** A point whose hp text can be written out and read back: it holds no ','. */
  predicate PointWritable(p: LifeBarPoint)
  {
    forall k :: 0 <= k < |p.hp| ==> p.hp[k] != COMMA
  }

  function FrameText(f: ReplayFrame): seq<byte>
  {
    IntText(f.time) + [BAR] + f.x + [BAR] + f.y + [BAR] + IntText(f.keys) + [COMMA]
  }

  function FramesText(fs: seq<ReplayFrame>): seq<byte>
  {
    if fs == [] then [] else FrameText(fs[0]) + FramesText(fs[1..])
  }

  /** A frame whose x and y texts can be written out and read back: they hold no '|'. */
  predicate FrameWritable(f: ReplayFrame)
  {
    && (forall k :: 0 <= k < |f.x| ==> f.x[k] != BAR)
    && (forall k :: 0 <= k < |f.y| ==> f.y[k] != BAR)
  }

  lemma IntTextHasNo(v: int, d: byte)
    requires d == BAR || d == COMMA
    ensures forall k :: 0 <= k < |IntText(v)| ==> IntText(v)[k] != d
  {
  }

  // ---- Round trips ----

  /** Round trip for one record: the text of a writable point, followed by anything,
      reads back as the point and leaves what follows. */
  lemma PointRecordText(p: LifeBarPoint, u: seq<byte>)
    requires PointWritable(p)
    ensures PointRecord(PointText(p) + u) == Ok(Cut(p, u))
  {
    var w := IntText(p.time);
    var afterTime := p.hp + [COMMA] + u;
    assert PointText(p) + u == w + [BAR] + afterTime;
    IntTextHasNo(p.time, BAR);
    FieldText(w, BAR, afterTime);
    FieldText(p.hp, COMMA, u);
    PointFromFields(PointText(p) + u, w, afterTime, p.hp, u);
    AtoiIntText(p.time);
  }

  /** Round trip for one action record. */
  lemma FrameRecordText(f: ReplayFrame, u: seq<byte>)
    requires FrameWritable(f)
    ensures FrameRecord(FrameText(f) + u) == Ok(Cut(f, u))
  {
    var w, k := IntText(f.time), IntText(f.keys);
    var afterY := k + [COMMA] + u;
    var afterX := f.y + [BAR] + afterY;
    var afterTime := f.x + [BAR] + afterX;
    assert FrameText(f) + u == w + [BAR] + afterTime;
    IntTextHasNo(f.time, BAR);
    IntTextHasNo(f.keys, COMMA);
    FieldText(w, BAR, afterTime);
    FieldText(f.x, BAR, afterX);
    FieldText(f.y, BAR, afterY);
    FieldText(k, COMMA, u);
    FrameFromFields(FrameText(f) + u, w, afterTime, f.x, afterX, f.y, afterY, k, u);
    AtoiIntText(f.time);
    AtoiIntText(f.keys);
  }

  /** Round trip: the text of writable points reads back as exactly those points, in
      order. */
  lemma {:induction false} LifeBarRoundTrip(ps: seq<LifeBarPoint>)
    requires forall k :: 0 <= k < |ps| ==> PointWritable(ps[k])
    ensures LifeBarOf(LifeBarText(ps)) == Ok(ps)
  {
    if ps != [] {
      PointRecordText(ps[0], LifeBarText(ps[1..]));
      LifeBarRoundTrip(ps[1..]);
      assert [ps[0]] + ps[1..] == ps;
    }
  }

  /** Round trip for the action stream. */
  lemma {:induction false} FramesRoundTrip(fs: seq<ReplayFrame>)
    requires forall k :: 0 <= k < |fs| ==> FrameWritable(fs[k])
    ensures FramesOf(FramesText(fs)) == Ok(fs)
  {
    if fs != [] {
      FrameRecordText(fs[0], FramesText(fs[1..]));
      FramesRoundTrip(fs[1..]);
      assert [fs[0]] + fs[1..] == fs;
    }
  }

  // ---- The source's record loops ----

  /** `r`, read with a cursor into `s`, is what `q` cuts from `s[..end]`: the same value,
      and the cursor stands where the rest of `q` begins. */
  predicate Agrees<T(==)>(r: Result<Read<T>>, q: Result<Cut<T>>, s: seq<byte>, end: nat)
  {
    match q
    case Err(e) => r == Err(e)
    case Ok(c) =>
      && r.Ok? && r.value.value == c.value
      && r.value.next <= end <= |s| && s[r.value.next..end] == c.rest
  }

  /** `while (*i != d) i++; i++;` over one field, stopped at `end`. */
  method ReadField(a: array<byte>, pos: nat, end: nat, d: byte) returns (r: Result<Read<seq<byte>>>)
    requires pos <= end <= a.Length
    ensures Agrees(r, Field(a[pos..end], d), a[..], end)
  {
    var k := ScanFor(a, pos, end, d);
    FieldAtFind(a[pos..end], d);
    if k == end {
      return Err(MalformedRecord);
    }
    assert a[pos..end][..k - pos] == a[pos..k];
    assert a[pos..end][k - pos + 1..] == a[k + 1..end];
    return Ok(Read(a[pos..k], k + 1));
  }

  /** One pass of the source's life-bar loop body. */
  method ReadPoint(a: array<byte>, pos: nat, end: nat) returns (r: Result<Read<LifeBarPoint>>)
    requires pos <= end <= a.Length
    ensures Agrees(r, PointRecord(a[pos..end]), a[..], end)
  {
    var time := ReadField(a, pos, end, BAR);
    if time.Err? {
      PointFieldsErr(a[pos..end]);
      return Err(MalformedRecord);
    }
    var hp := ReadField(a, time.value.next, end, COMMA);
    if hp.Err? {
      PointFieldsErr(a[pos..end]);
      return Err(MalformedRecord);
    }
    PointFromFields(a[pos..end], time.value.value, a[time.value.next..end], hp.value.value, a[hp.value.next..end]);
    return Ok(Read(LifeBarPoint(Atoi(time.value.value), hp.value.value), hp.value.next));
  }

  /** One pass of the source's action-record loop body. */
  method ReadFrame(a: array<byte>, pos: nat, end: nat) returns (r: Result<Read<ReplayFrame>>)
    requires pos <= end <= a.Length
    ensures Agrees(r, FrameRecord(a[pos..end]), a[..], end)
  {
    var time := ReadField(a, pos, end, BAR);
    if time.Err? {
      FrameFieldsErr(a[pos..end]);
      return Err(MalformedRecord);
    }
    var x := ReadField(a, time.value.next, end, BAR);
    if x.Err? {
      FrameFieldsErr(a[pos..end]);
      return Err(MalformedRecord);
    }
    var y := ReadField(a, x.value.next, end, BAR);
    if y.Err? {
      FrameFieldsErr(a[pos..end]);
      return Err(MalformedRecord);
    }
    var keys := ReadField(a, y.value.next, end, COMMA);
    if keys.Err? {
      FrameFieldsErr(a[pos..end]);
      return Err(MalformedRecord);
    }
    FrameFromFields(a[pos..end], time.value.value, a[time.value.next..end], x.value.value, a[x.value.next..end],
                    y.value.value, a[y.value.next..end], keys.value.value, a[keys.value.next..end]);
    var frame := ReplayFrame(Atoi(time.value.value), x.value.value, y.value.value, Atoi(keys.value.value));
    return Ok(Read(frame, keys.value.next));
  }

  /** The source's life-bar loop over `a[start..end]`: fills an array sized by the
      payload's byte length while counting the records. */
  method ReadLifeBar(a: array<byte>, start: nat, end: nat) returns (r: Result<seq<LifeBarPoint>>)
    requires start <= end <= a.Length
    ensures r == LifeBarOf(a[start..end])
  {
    var graph := new LifeBarPoint[end - start](_ => LifeBarPoint(0, []));
    var length := 0;
    ghost var s := a[..];
    ghost var done: seq<LifeBarPoint> := [];
    var i := start;
    assert Prepend(done, LifeBarOf(s[i..end])) == LifeBarOf(s[start..end]) by {
      assert forall q: seq<LifeBarPoint> :: [] + q == q;
    }
    while i < end
      invariant start <= i <= end
      invariant a[..] == s
      invariant 2 * length <= i - start
      invariant graph[..length] == done
      invariant LifeBarOf(s[start..end]) == Prepend(done, LifeBarOf(s[i..end]))
      decreases end - i
    {
      var point := ReadPoint(a, i, end);
      if point.Err? {
        return Err(point.error);
      }
      var p, next := point.value.value, point.value.next;
      assert |s[next..end]| + 2 <= |s[i..end]|;
      LifeBarStep(s[i..end], p, s[next..end]);
      PrependTwice(done, [p], LifeBarOf(s[next..end]));
      graph[length] := p;
      assert graph[..length + 1] == done + [p];
      done := done + [p];
      length := length + 1;
      i := next;
    }
    assert done + [] == done;
    return Ok(graph[..length]);
  }

  /** The source's action-record loop over the decompressed bytes. */
  method ReadFrames(data: array<byte>) returns (r: Result<seq<ReplayFrame>>)
    ensures r == FramesOf(data[..])
  {
    var frames := new ReplayFrame[data.Length](_ => ReplayFrame(0, [], [], 0));
    var length := 0;
    ghost var s := data[..];
    ghost var done: seq<ReplayFrame> := [];
    var i := 0;
    assert Prepend(done, FramesOf(s[i..data.Length])) == FramesOf(s) by {
      assert s[0..data.Length] == s;
      assert forall q: seq<ReplayFrame> :: [] + q == q;
    }
    while i < data.Length
      invariant i <= data.Length
      invariant 4 * length <= i
      invariant |done| == length && forall k :: 0 <= k < length ==> frames[k] == done[k]
      invariant FramesOf(s) == Prepend(done, FramesOf(s[i..data.Length]))
      decreases data.Length - i
    {
      var frame := ReadFrame(data, i, data.Length);
      FrameReadOn(s, i, data.Length, frame, done);
      if frame.Err? {
        return Err(frame.error);
      }
      var f, next := frame.value.value, frame.value.next;
      frames[length] := f;
      done := done + [f];
      length := length + 1;
      i := next;
    }
    assert done + [] == done;
    assert frames[..length] == done;
    return Ok(frames[..length]);
  }
}
