/**
  The input preprocessor (`preprocess_input`): validates a raw survey record
  against the model's feature set, encodes the categorical block, scales the
  continuous block and reindexes the merged one-row frame into the order the
  classifier was fitted with.
 */
module Preprocess {
  import opened Outcome

  type FeatureId = string

  /** The answers of one subject: feature identifier to numeric code or value. */
  type Record = map<FeatureId, real>

  /** Feature metadata loaded with the model. */
  datatype FeaturesInfo = FeaturesInfo(
    selected: seq<FeatureId>,     // selected_features: the classifier's column order
    categorical: seq<FeatureId>,  // selected_categorical (defaults to [])
    continuous: seq<FeatureId>)   // selected_continuous (defaults to [])

  /** A fitted per-column transformer (ordinal encoder or scaler); None when not loaded. */
  type Transformer = Option<(FeatureId, real) -> real>

  /** One column of a one-row data frame. */
  datatype Column = Column(name: FeatureId, value: real)

  /** A one-row data frame: its columns, in order; labels may repeat. */
  type Frame = seq<Column>

  datatype PreprocessError =
    | MissingFeatures(missing: seq<FeatureId>)   // the ValueError of the required-feature check
    | ColumnsNotFound(absent: seq<FeatureId>)    // the KeyError of a column selection

  /** The entries of `names` that are not in `present`, in the order of `names`. */
  function Absent(names: seq<FeatureId>, present: set<FeatureId>): (r: seq<FeatureId>)
    ensures |r| <= |names|
    ensures forall f :: f in r <==> f in names && f !in present
  {
    if names == [] then []
    else (if names[0] in present then [] else [names[0]]) + Absent(names[1..], present)
  }

  /** The labels of a frame's columns, in order. */
  function Labels(frame: Frame): (r: seq<FeatureId>)
    ensures |r| == |frame|
    ensures forall i :: 0 <= i < |frame| ==> r[i] == frame[i].name
  {
    if frame == [] then [] else [frame[0].name] + Labels(frame[1..])
  }

  /** The columns of `frame` that carry `name`, in frame order. */
  function ColumnsLabelled(frame: Frame, name: FeatureId): (r: Frame)
    ensures forall c :: c in r <==> c in frame && c.name == name
    ensures name !in Labels(frame) ==> r == []
  {
    if frame == [] then []
    else (if frame[0].name == name then [frame[0]] else []) + ColumnsLabelled(frame[1..], name)
  }

  /** For each requested label, every column carrying it: what `df[names]` selects. */
  function Gather(frame: Frame, names: seq<FeatureId>): Frame
  {
    if names == [] then [] else ColumnsLabelled(frame, names[0]) + Gather(frame, names[1..])
  }

  /** `df[names]` on a frame: a KeyError naming the absent labels, or the selected columns. */
  function Reindex(frame: Frame, names: seq<FeatureId>): (r: Result<Frame, seq<FeatureId>>)
    ensures r.Err? <==> exists f :: f in names && f !in Labels(frame)
    ensures r.Err? ==> r.error == Absent(names, set c | c in Labels(frame))
  {
    var absent := Absent(names, set c | c in Labels(frame));
    if absent != [] then assert absent[0] in absent; Err(absent) else Ok(Gather(frame, names))
  }

  /** `{k: v for k, v in data.items() if k in selected_features}` */
  function Project(data: Record, selected: seq<FeatureId>): (r: Record)
    ensures r.Keys == data.Keys * (set f | f in selected)
    ensures forall k :: k in r ==> r[k] == data[k]
  {
    map k | k in data && k in selected :: data[k]
  }

  /** `transformer.transform(df[cols])` with `columns=cols`, on the frame built from `row`. */
  function TransformBlock(row: Record, cols: seq<FeatureId>, t: (FeatureId, real) -> real): (r: Result<Frame, seq<FeatureId>>)
    ensures r.Err? <==> exists f :: f in cols && f !in row
    ensures r.Err? ==> r.error == Absent(cols, row.Keys)
    ensures r.Ok? ==> |r.value| == |cols|
    ensures r.Ok? ==> forall i :: 0 <= i < |cols| ==> r.value[i] == Column(cols[i], t(cols[i], row[cols[i]]))
  {
    var absent := Absent(cols, row.Keys);
    if absent != [] then assert absent[0] in absent; Err(absent)
    else Ok(seq(|cols|, i requires 0 <= i < |cols| => Column(cols[i], t(cols[i], row[cols[i]]))))
  }

  /** Whether a block is transformed at all: its list is non-empty and its transformer loaded. */
  predicate Applied(cols: seq<FeatureId>, t: Transformer)
  {
    |cols| > 0 && t.Some?
  }

  /** One block (categorical or continuous): transformed when applied, otherwise an empty frame. */
  function Block(row: Record, cols: seq<FeatureId>, t: Transformer): (r: Result<Frame, seq<FeatureId>>)
    ensures !Applied(cols, t) ==> r == Ok([])
    ensures Applied(cols, t) ==> r == TransformBlock(row, cols, t.value)
  {
    if |cols| > 0 && t.Some? then TransformBlock(row, cols, t.value) else Ok([])
  }

  /** The three-way merge of the two blocks. */
  function Merge(cat: Frame, cont: Frame): (r: Frame)
    ensures r == cat + cont
  {
    if cat != [] && cont != [] then cat + cont
    else if cat != [] then cat
    else cont
  }

  /** Everything after the required-feature check: encode, scale, merge and reindex the projected row. */
  function EncodeRow(row: Record, info: FeaturesInfo, encoder: Transformer, scaler: Transformer)
    : (r: Result<Frame, PreprocessError>)
    ensures r.Err? ==> r.error.ColumnsNotFound?
  {
    match Block(row, info.categorical, encoder)
    case Err(absent) => Err(ColumnsNotFound(absent))
    case Ok(cat) =>
      match Block(row, info.continuous, scaler)
      case Err(absent) => Err(ColumnsNotFound(absent))
      case Ok(cont) =>
        match Reindex(Merge(cat, cont), info.selected)
        case Err(absent) => Err(ColumnsNotFound(absent))
        case Ok(x) => Ok(x)
  }

  /**
    `preprocess_input`. The required-feature check runs first: the result is a MissingFeatures
    error exactly when some selected feature is absent from the input, and that error lists
    every absent selected feature, in selected-feature order, whatever the transformers are.
    Any other error is a column KeyError.
   */
  function PreprocessInput(data: Record, info: FeaturesInfo, encoder: Transformer, scaler: Transformer)
    : (r: Result<Frame, PreprocessError>)
    ensures r.Err? && r.error.MissingFeatures? <==> exists f :: f in info.selected && f !in data
    ensures r.Err? && r.error.MissingFeatures? ==>
      r.error.missing == Absent(info.selected, data.Keys) &&
      forall f :: f in r.error.missing <==> f in info.selected && f !in data
    ensures r.Err? && !r.error.MissingFeatures? ==> r.error.ColumnsNotFound?
  {
    var missing := Absent(info.selected, data.Keys);
    if missing != [] then assert missing[0] in missing; Err(MissingFeatures(missing))
    else EncodeRow(Project(data, info.selected), info, encoder, scaler)
  }

  // ---------------------------------------------------------------------------
  // Properties

  predicate Distinct(s: seq<FeatureId>)
  {
    forall i, j :: 0 <= i < j < |s| ==> s[i] != s[j]
  }

  /** The feature set is consistent: each block lists its identifiers once, and no identifier is in both. */
  predicate WellFormed(info: FeaturesInfo)
  {
    Distinct(info.categorical + info.continuous)
  }

  /** The labels a block contributes to the merged frame. */
  function BlockLabels(cols: seq<FeatureId>, t: Transformer): seq<FeatureId>
  {
    if Applied(cols, t) then cols else []
  }

  /** Absent distributes over concatenation, so it lists absent identifiers in request order. */
  lemma {:induction false} AbsentAppend(a: seq<FeatureId>, b: seq<FeatureId>, present: set<FeatureId>)
    ensures Absent(a + b, present) == Absent(a, present) + Absent(b, present)
  {
    if a != [] {
      assert (a + b)[0] == a[0] && (a + b)[1..] == a[1..] + b;
      AbsentAppend(a[1..], b, present);
    } else {
      assert a + b == b;
    }
  }

  /** Absent looks at `present` only through the requested names. */
  lemma {:induction false} AbsentAgree(names: seq<FeatureId>, p1: set<FeatureId>, p2: set<FeatureId>)
    requires forall f :: f in names ==> (f in p1 <==> f in p2)
    ensures Absent(names, p1) == Absent(names, p2)
  {
    if names != [] {
      AbsentAgree(names[1..], p1, p2);
    }
  }

  lemma {:induction false} LabelsAppend(a: Frame, b: Frame)
    ensures Labels(a + b) == Labels(a) + Labels(b)
  {
    if a != [] {
      assert (a + b)[1..] == a[1..] + b;
      LabelsAppend(a[1..], b);
    }
  }

  /** In a frame whose labels are distinct, each present label selects exactly one column. */
  lemma {:induction false} ColumnsLabelledUnique(frame: Frame, name: FeatureId)
    requires Distinct(Labels(frame))
    requires name in Labels(frame)
    ensures |ColumnsLabelled(frame, name)| == 1
  {
    var rest := frame[1..];
    assert Labels(frame) == [frame[0].name] + Labels(rest);
    assert Distinct(Labels(rest)) by {
      forall i, j | 0 <= i < j < |Labels(rest)| ensures Labels(rest)[i] != Labels(rest)[j] {
        assert Labels(rest)[i] == Labels(frame)[i + 1] && Labels(rest)[j] == Labels(frame)[j + 1];
      }
    }
    if frame[0].name != name {
      ColumnsLabelledUnique(rest, name);
    }
  }

  /** Reindexing a frame with distinct labels yields one column per requested name, in request order. */
  lemma {:induction false} GatherUnique(frame: Frame, names: seq<FeatureId>)
    requires Distinct(Labels(frame))
    requires forall n :: n in names ==> n in Labels(frame)
    ensures |Gather(frame, names)| == |names|
    ensures forall i :: 0 <= i < |names| ==> Gather(frame, names)[i] in frame && Gather(frame, names)[i].name == names[i]
  {
    if names != [] {
      ColumnsLabelledUnique(frame, names[0]);
      GatherUnique(frame, names[1..]);
      var head, tail := ColumnsLabelled(frame, names[0]), Gather(frame, names[1..]);
      assert Gather(frame, names) == head + tail;
      assert head[0] in head;
      forall i | 0 <= i < |names|
        ensures (head + tail)[i] in frame && (head + tail)[i].name == names[i]
      {
        if i > 0 {
          assert (head + tail)[i] == tail[i - 1];
        }
      }
    }
  }

  /** The count of an element in a non-empty sequence, counted from the first. */
  lemma ConsCount<T>(s: seq<T>, x: T)
    requires s != []
    ensures multiset(s)[x] == (if x == s[0] then 1 else 0) + multiset(s[1..])[x]
  {
    assert s == [s[0]] + s[1..];
  }

  /** One step of the label filter: the first column if it carries the label, then the rest's. */
  lemma ColumnsLabelledCons(frame: Frame, name: FeatureId, c: Column)
    requires frame != []
    ensures multiset(ColumnsLabelled(frame, name))[c] ==
      (if c == frame[0] && c.name == name then 1 else 0) + multiset(ColumnsLabelled(frame[1..], name))[c]
  {
    var head := if frame[0].name == name then [frame[0]] else [];
    assert ColumnsLabelled(frame, name) == head + ColumnsLabelled(frame[1..], name);
  }

  /** A column is selected by its label as often as it occurs in the frame, and by no other label. */
  lemma {:induction false} ColumnsLabelledCount(frame: Frame, name: FeatureId, c: Column)
    ensures multiset(ColumnsLabelled(frame, name))[c] == if c.name == name then multiset(frame)[c] else 0
  {
    if frame != [] {
      ColumnsLabelledCount(frame[1..], name, c);
      ColumnsLabelledCons(frame, name, c);
      ConsCount(frame, c);
    }
  }

  /** One step of the selection: the first label's columns, then the rest's. */
  lemma GatherConsCount(frame: Frame, names: seq<FeatureId>, c: Column)
    requires names != []
    ensures multiset(Gather(frame, names))[c] ==
      multiset(ColumnsLabelled(frame, names[0]))[c] + multiset(Gather(frame, names[1..]))[c]
  {
    assert Gather(frame, names) == ColumnsLabelled(frame, names[0]) + Gather(frame, names[1..]);
  }

  /**
    Duplicates are kept on both sides: a column occurs in the selection its count in the frame
    times the number of requests for its label.
   */
  lemma {:induction false} GatherCount(frame: Frame, names: seq<FeatureId>, c: Column)
    ensures multiset(Gather(frame, names))[c] == multiset(frame)[c] * multiset(names)[c.name]
  {
    if names == [] {
      assert Gather(frame, names) == [] && multiset(names)[c.name] == 0;
    } else {
      GatherCount(frame, names[1..], c);
      GatherConsCount(frame, names, c);
      ColumnsLabelledCount(frame, names[0], c);
      ConsCount(names, c.name);
      CountStep(multiset(Gather(frame, names))[c], multiset(ColumnsLabelled(frame, names[0]))[c],
                multiset(Gather(frame, names[1..]))[c], multiset(frame)[c], multiset(names)[c.name],
                multiset(names[1..])[c.name], c.name == names[0]);
    }
  }

  /** The arithmetic of one step of GatherCount. */
  lemma CountStep(total: int, headCount: int, tailCount: int, k: int, n: int, later: int, first: bool)
    requires total == headCount + tailCount
    requires n == (if first then 1 else 0) + later
    requires headCount == (if first then k else 0)
    requires tailCount == k * later
    ensures total == k * n
  {
    if first {
      assert k * (1 + later) == k + k * later;
    }
  }

  /** The selection holds exactly the frame's columns whose label is requested. */
  lemma GatherMembers(frame: Frame, names: seq<FeatureId>, c: Column)
    ensures c in Gather(frame, names) <==> c in frame && c.name in names
  {
    GatherCount(frame, names, c);
    var k, n := multiset(frame)[c], multiset(names)[c.name];
    assert c in Gather(frame, names) <==> multiset(Gather(frame, names))[c] > 0;
    assert c in frame <==> k > 0;
    assert c.name in names <==> n > 0;
    PositiveProduct(k, n);
  }

  /** A product of naturals is positive exactly when both factors are. */
  lemma PositiveProduct(k: nat, n: nat)
    ensures k * n > 0 <==> k > 0 && n > 0
  {
    if k > 0 && n > 0 {
      assert k * n >= n;
    }
  }

  /** A single label selects the columns that carry it. */
  lemma GatherSingle(frame: Frame, name: FeatureId)
    ensures Gather(frame, [name]) == ColumnsLabelled(frame, name)
  {
    assert [name][0] == name && [name][1..] == [];
    assert ColumnsLabelled(frame, name) + [] == ColumnsLabelled(frame, name);
  }

  /**
    The selection follows the request order: a concatenated request selects the first part's
    columns and then the second's.
   */
  lemma {:induction false} GatherAppend(frame: Frame, a: seq<FeatureId>, b: seq<FeatureId>)
    ensures Gather(frame, a + b) == Gather(frame, a) + Gather(frame, b)
  {
    if a == [] {
      assert a + b == b;
    } else {
      assert (a + b)[0] == a[0] && (a + b)[1..] == a[1..] + b;
      GatherAppend(frame, a[1..], b);
    }
  }

  /** Reindexing by labels that are all present selects, never fails. */
  lemma ReindexPresent(frame: Frame, names: seq<FeatureId>)
    requires forall n :: n in names ==> n in Labels(frame)
    ensures Reindex(frame, names) == Ok(Gather(frame, names))
  {
  }

  /** In a frame with distinct labels, a label names only one column. */
  lemma UniqueColumn(frame: Frame, c: Column, d: Column)
    requires Distinct(Labels(frame))
    requires c in frame && d in frame && c.name == d.name
    ensures c == d
  {
    var i :| 0 <= i < |frame| && frame[i] == c;
    var j :| 0 <= j < |frame| && frame[j] == d;
    var labels := Labels(frame);
    assert labels[i] == c.name && labels[j] == d.name;
    assert i == j;
  }

  /** Frames holding the same columns carry the same labels. */
  lemma SameColumnsSameLabels(f1: Frame, f2: Frame, n: FeatureId)
    requires forall c :: c in f1 <==> c in f2
    requires n in Labels(f1)
    ensures n in Labels(f2)
  {
    var i :| 0 <= i < |f1| && Labels(f1)[i] == n;
    assert f1[i] in f2;
    var j :| 0 <= j < |f2| && f2[j] == f1[i];
    assert Labels(f2)[j] == n;
  }

  /**
    Reindexing undoes any column order of the merged frame: two frames with distinct labels
    holding the same columns reindex to the same result.
   */
  lemma ReindexIgnoresColumnOrder(f1: Frame, f2: Frame, names: seq<FeatureId>)
    requires Distinct(Labels(f1)) && Distinct(Labels(f2))
    requires forall c :: c in f1 <==> c in f2
    requires forall n :: n in names ==> n in Labels(f1)
    ensures Reindex(f1, names) == Reindex(f2, names)
  {
    forall n | n in names ensures n in Labels(f2) {
      SameColumnsSameLabels(f1, f2, n);
    }
    ReindexPresent(f1, names);
    ReindexPresent(f2, names);
    GatherUnique(f1, names);
    GatherUnique(f2, names);
    var g1, g2 := Gather(f1, names), Gather(f2, names);
    forall i | 0 <= i < |names| ensures g1[i] == g2[i] {
      UniqueColumn(f2, g1[i], g2[i]);
    }
    assert g1 == g2;
  }

  /** A successfully transformed block carries exactly its own columns' labels. */
  lemma BlockLabelsOk(row: Record, cols: seq<FeatureId>, t: Transformer)
    requires Block(row, cols, t).Ok?
    ensures Labels(Block(row, cols, t).value) == BlockLabels(cols, t)
  {
    var f := Block(row, cols, t).value;
    assert |Labels(f)| == |BlockLabels(cols, t)|;
    forall i | 0 <= i < |Labels(f)| ensures Labels(f)[i] == BlockLabels(cols, t)[i] {
    }
  }

  /** Keys outside the selected features play no part: inputs that agree on the selected features preprocess alike. */
  lemma ExtraKeysIgnored(d1: Record, d2: Record, info: FeaturesInfo, encoder: Transformer, scaler: Transformer)
    requires forall f :: f in info.selected ==> (f in d1 <==> f in d2)
    requires forall f :: f in info.selected && f in d1 ==> d1[f] == d2[f]
    ensures PreprocessInput(d1, info, encoder, scaler) == PreprocessInput(d2, info, encoder, scaler)
  {
    AbsentAgree(info.selected, d1.Keys, d2.Keys);
    assert Project(d1, info.selected) == Project(d2, info.selected);
  }

  /** Adding keys that are not selected features never changes the outcome, so never causes an error. */
  lemma ExtraKeysNeverFail(data: Record, extra: Record, info: FeaturesInfo, encoder: Transformer, scaler: Transformer)
    requires forall f :: f in extra ==> f !in info.selected
    ensures PreprocessInput(data + extra, info, encoder, scaler) == PreprocessInput(data, info, encoder, scaler)
  {
    ExtraKeysIgnored(data + extra, data, info, encoder, scaler);
  }

  /** The reindex step's view of the merged frame: its labels are the applied blocks' lists. */
  lemma MergedLabels(row: Record, info: FeaturesInfo, encoder: Transformer, scaler: Transformer)
    requires Block(row, info.categorical, encoder).Ok? && Block(row, info.continuous, scaler).Ok?
    ensures Labels(Merge(Block(row, info.categorical, encoder).value, Block(row, info.continuous, scaler).value))
      == BlockLabels(info.categorical, encoder) + BlockLabels(info.continuous, scaler)
  {
    BlockLabelsOk(row, info.categorical, encoder);
    BlockLabelsOk(row, info.continuous, scaler);
    LabelsAppend(Block(row, info.categorical, encoder).value, Block(row, info.continuous, scaler).value);
  }

  /** The encoding step succeeds on a row holding exactly the selected features iff the blocks only name those and cover them. */
  lemma EncodeRowOkIff(row: Record, info: FeaturesInfo, encoder: Transformer, scaler: Transformer)
    requires forall f :: f in row <==> f in info.selected
    ensures EncodeRow(row, info, encoder, scaler).Ok? <==>
      && (Applied(info.categorical, encoder) ==> forall f :: f in info.categorical ==> f in info.selected)
      && (Applied(info.continuous, scaler) ==> forall f :: f in info.continuous ==> f in info.selected)
      && (forall f :: f in info.selected ==>
            f in BlockLabels(info.categorical, encoder) + BlockLabels(info.continuous, scaler))
  {
    var cat := Block(row, info.categorical, encoder);
    var cont := Block(row, info.continuous, scaler);
    if cat.Ok? && cont.Ok? {
      MergedLabels(row, info, encoder, scaler);
    }
  }

  /**
    Exactly when preprocessing succeeds: no selected feature is missing, each applied block
    only names selected features, and every selected feature is covered by an applied block.
   */
  lemma PreprocessSucceedsIff(data: Record, info: FeaturesInfo, encoder: Transformer, scaler: Transformer)
    ensures PreprocessInput(data, info, encoder, scaler).Ok? <==>
      && (forall f :: f in info.selected ==> f in data)
      && (Applied(info.categorical, encoder) ==> forall f :: f in info.categorical ==> f in info.selected)
      && (Applied(info.continuous, scaler) ==> forall f :: f in info.continuous ==> f in info.selected)
      && (forall f :: f in info.selected ==>
            f in BlockLabels(info.categorical, encoder) + BlockLabels(info.continuous, scaler))
  {
    var missing := Absent(info.selected, data.Keys);
    if missing == [] {
      var row := Project(data, info.selected);
      assert forall f :: f in row <==> f in info.selected;
      EncodeRowOkIff(row, info, encoder, scaler);
    } else {
      assert missing[0] in missing;
    }
  }

  /** A selected feature that no applied block produces (its list is empty or its transformer absent) makes preprocessing fail. */
  lemma UncoveredFeatureFails(data: Record, info: FeaturesInfo, encoder: Transformer, scaler: Transformer, f: FeatureId)
    requires f in info.selected
    requires f !in BlockLabels(info.categorical, encoder) && f !in BlockLabels(info.continuous, scaler)
    ensures PreprocessInput(data, info, encoder, scaler).Err?
  {
    PreprocessSucceedsIff(data, info, encoder, scaler);
  }

  /** What a successful run returns: the reindexed merge of two successfully transformed blocks. */
  lemma PreprocessOk(data: Record, info: FeaturesInfo, encoder: Transformer, scaler: Transformer)
    requires PreprocessInput(data, info, encoder, scaler).Ok?
    ensures Absent(info.selected, data.Keys) == []
    ensures var row := Project(data, info.selected);
      && Block(row, info.categorical, encoder).Ok?
      && Block(row, info.continuous, scaler).Ok?
      && PreprocessInput(data, info, encoder, scaler).value
         == Gather(Merge(Block(row, info.categorical, encoder).value, Block(row, info.continuous, scaler).value), info.selected)
  {
    assert Absent(info.selected, data.Keys) == [];
  }

  /** A well-formed feature set gives the merged frame distinct labels. */
  lemma DistinctBlockLabels(info: FeaturesInfo, encoder: Transformer, scaler: Transformer)
    requires WellFormed(info)
    ensures Distinct(BlockLabels(info.categorical, encoder) + BlockLabels(info.continuous, scaler))
  {
    var labels := BlockLabels(info.categorical, encoder) + BlockLabels(info.continuous, scaler);
    var all := info.categorical + info.continuous;
    forall i, j | 0 <= i < j < |labels| ensures labels[i] != labels[j] {
      if !Applied(info.categorical, encoder) {
        assert labels[i] == all[|info.categorical| + i] && labels[j] == all[|info.categorical| + j];
      } else if Applied(info.continuous, scaler) {
        assert labels == all;
      } else {
        assert labels[i] == all[i] && labels[j] == all[j];
      }
    }
  }

  /** In a well-formed feature set, the two blocks share no identifier. */
  lemma BlocksDisjoint(info: FeaturesInfo, f: FeatureId)
    requires WellFormed(info)
    ensures !(f in info.categorical && f in info.continuous)
  {
    var all := info.categorical + info.continuous;
    forall k, m | 0 <= k < |info.categorical| && 0 <= m < |info.continuous|
      ensures info.categorical[k] != info.continuous[m]
    {
      assert all[k] == info.categorical[k] && all[|info.categorical| + m] == info.continuous[m];
    }
  }

  /** Every column of a transformed block is the transformer applied to that column's raw value. */
  lemma BlockColumn(row: Record, cols: seq<FeatureId>, t: Transformer, c: Column)
    requires Block(row, cols, t).Ok?
    requires c in Block(row, cols, t).value
    ensures Applied(cols, t) && c.name in cols && c.name in row
    ensures c.value == t.value(c.name, row[c.name])
  {
    var f := Block(row, cols, t).value;
    var k :| 0 <= k < |f| && f[k] == c;
    assert Applied(cols, t);
    assert TransformBlock(row, cols, t.value).Ok?;
    assert forall g :: g in cols ==> g in row;
    assert c == Column(cols[k], t.value(cols[k], row[cols[k]]));
  }

  /**
    Column `c` holds the transformed raw value of its feature: the encoder's for a categorical
    feature, the scaler's for a continuous one.
   */
  predicate Encoded(row: Record, info: FeaturesInfo, encoder: Transformer, scaler: Transformer, c: Column)
  {
    && c.name in row
    && (c.name in info.categorical || c.name in info.continuous)
    && (c.name in info.categorical ==> encoder.Some? && c.value == encoder.value(c.name, row[c.name]))
    && (c.name in info.continuous ==> scaler.Some? && c.value == scaler.value(c.name, row[c.name]))
  }

  /** Every column of the merged frame is its feature's transformed value, from the block that lists it. */
  lemma MergedColumn(row: Record, info: FeaturesInfo, encoder: Transformer, scaler: Transformer, c: Column)
    requires WellFormed(info)
    requires Block(row, info.categorical, encoder).Ok? && Block(row, info.continuous, scaler).Ok?
    requires c in Merge(Block(row, info.categorical, encoder).value, Block(row, info.continuous, scaler).value)
    ensures Encoded(row, info, encoder, scaler, c)
  {
    BlocksDisjoint(info, c.name);
    if c in Block(row, info.categorical, encoder).value {
      BlockColumn(row, info.categorical, encoder, c);
    } else {
      BlockColumn(row, info.continuous, scaler, c);
    }
  }

  /** The reindex of the merged blocks, in terms of the projected row. */
  lemma ReindexedBlocks(row: Record, info: FeaturesInfo, encoder: Transformer, scaler: Transformer)
    requires WellFormed(info)
    requires Block(row, info.categorical, encoder).Ok? && Block(row, info.continuous, scaler).Ok?
    requires forall f :: f in info.selected ==>
      f in BlockLabels(info.categorical, encoder) + BlockLabels(info.continuous, scaler)
    ensures var x := Gather(Merge(Block(row, info.categorical, encoder).value, Block(row, info.continuous, scaler).value), info.selected);
      && Labels(x) == info.selected
      && forall c :: c in x ==> Encoded(row, info, encoder, scaler, c)
  {
    var merged := Merge(Block(row, info.categorical, encoder).value, Block(row, info.continuous, scaler).value);
    ReindexedLabels(merged, row, info, encoder, scaler);
    forall c | c in Gather(merged, info.selected) ensures Encoded(row, info, encoder, scaler, c) {
      GatherMembers(merged, info.selected, c);
      MergedColumn(row, info, encoder, scaler, c);
    }
  }

  /** The labels of the reindexed merge are the selected features, in order. */
  lemma ReindexedLabels(merged: Frame, row: Record, info: FeaturesInfo, encoder: Transformer, scaler: Transformer)
    requires WellFormed(info)
    requires Block(row, info.categorical, encoder).Ok? && Block(row, info.continuous, scaler).Ok?
    requires merged == Merge(Block(row, info.categorical, encoder).value, Block(row, info.continuous, scaler).value)
    requires forall f :: f in info.selected ==>
      f in BlockLabels(info.categorical, encoder) + BlockLabels(info.continuous, scaler)
    ensures Labels(Gather(merged, info.selected)) == info.selected
  {
    MergedLabels(row, info, encoder, scaler);
    DistinctBlockLabels(info, encoder, scaler);
    GatherUnique(merged, info.selected);
    var x := Gather(merged, info.selected);
    forall i | 0 <= i < |info.selected| ensures Labels(x)[i] == info.selected[i] {
    }
  }

  /** A column encoded from the projected row is encoded from the raw input as well. */
  lemma EncodedProjected(data: Record, info: FeaturesInfo, encoder: Transformer, scaler: Transformer, c: Column)
    requires Encoded(Project(data, info.selected), info, encoder, scaler, c)
    ensures Encoded(data, info, encoder, scaler, c)
  {
  }

  /**
    On success with a well-formed feature set, the output's columns are exactly the selected
    features in their order, each holding the encoder's value (categorical) or the scaler's
    value (continuous) of that feature's raw input.
   */
  lemma PreprocessColumnOrder(data: Record, info: FeaturesInfo, encoder: Transformer, scaler: Transformer)
    requires WellFormed(info)
    requires PreprocessInput(data, info, encoder, scaler).Ok?
    ensures var x := PreprocessInput(data, info, encoder, scaler).value;
      && Labels(x) == info.selected
      && forall c :: c in x ==> Encoded(data, info, encoder, scaler, c)
  {
    PreprocessSucceedsIff(data, info, encoder, scaler);
    PreprocessOk(data, info, encoder, scaler);
    ReindexedBlocks(Project(data, info.selected), info, encoder, scaler);
    var x := PreprocessInput(data, info, encoder, scaler).value;
    forall c | c in x ensures Encoded(data, info, encoder, scaler, c) {
      EncodedProjected(data, info, encoder, scaler, c);
    }
  }
}
