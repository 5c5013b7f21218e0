/** A desktop-capturer wrapper that publishes the sources of its base capturer under the
    ids of a second ("external") numbering, matching the two by source name. The three
    source queries (internal sources, external sources, the base capturer's list) and the
    base capturer's `SelectSource` are calls into code not shown here: their answers are
    parameters, `None` standing for a query that fails. */
module MappingDeviceDesktopCapturerWrapper {
  import opened Common

  /** `DetailSource`. */
  datatype DetailSource = DetailSource(id: int, name: string, title: string)

  /** `DesktopCapturer::Source`. */
  datatype Source = Source(id: int, title: string)

  /** The largest external id, or 0 when all are smaller (the running `max_source_id`). */
  function MaxId(external: seq<DetailSource>): (r: int)
    ensures r >= 0
    ensures forall i :: 0 <= i < |external| ==> external[i].id <= r
  {
    if external == [] then 0 else Max(external[|external| - 1].id, MaxId(external[..|external| - 1]))
  }

  /** The title the base capturer lists for `id`, or the empty string. */
  function TitleFor(list: seq<Source>, id: int): (r: string)
    ensures (forall i :: 0 <= i < |list| ==> list[i].id != id) ==> r == ""
    ensures forall i :: (0 <= i < |list| && list[i].id == id && (forall j :: 0 <= j < i ==> list[j].id != id)
                         ==> r == list[i].title)
    ensures r != "" ==> exists i :: 0 <= i < |list| && list[i].id == id && list[i].title == r
  {
    if list == [] then ""
    else if list[0].id == id then list[0].title
    else
      var r := TitleFor(list[1..], id);
      assert forall i :: 1 <= i < |list| ==> list[i] == list[1..][i - 1];
      r
  }

  /** The first source with the given name (`std::find_if` on the name). */
  function FindByName(sources: seq<DetailSource>, name: string): (r: Option<DetailSource>)
    ensures r.None? <==> forall i :: 0 <= i < |sources| ==> sources[i].name != name
    ensures r.Some? ==> exists i :: (0 <= i < |sources| && sources[i] == r.value && r.value.name == name
      && forall j :: 0 <= j < i ==> sources[j].name != name)
  {
    if sources == [] then None
    else if sources[0].name == name then Some(sources[0])
    else
      var r := FindByName(sources[1..], name);
      assert forall i :: 1 <= i < |sources| ==> sources[i] == sources[1..][i - 1];
      r
  }

  /** The first source with the given id. */
  function FindById(sources: seq<DetailSource>, id: int): (r: Option<DetailSource>)
    ensures r.None? <==> forall i :: 0 <= i < |sources| ==> sources[i].id != id
    ensures r.Some? ==> r.value in sources && r.value.id == id
  {
    if sources == [] then None
    else if sources[0].id == id then Some(sources[0])
    else
      var r := FindById(sources[1..], id);
      assert forall i :: 1 <= i < |sources| ==> sources[i] == sources[1..][i - 1];
      r
  }

  /** The state of the merge loop: the output so far, the names seen, `max_source_id`. */
  datatype MergeState = MergeState(output: seq<DetailSource>, names: set<string>, maxId: int)

  /** One iteration of the merge loop. */
  function MergeStep(st: MergeState, src: DetailSource, external: seq<DetailSource>, list: seq<Source>): (r: MergeState)
    ensures r.maxId >= st.maxId && st.output <= r.output && st.names <= r.names
    ensures src.name == "" || src.name in st.names ==> r == st
    ensures src.name != "" && src.name !in st.names ==>
      && |r.output| == |st.output| + 1
      && r.output[|st.output|].name == src.name
      && (FindByName(external, src.name).None? ==> r.output[|st.output|].id == r.maxId > st.maxId)
      && (FindByName(external, src.name).Some? ==> r.output[|st.output|].id == FindByName(external, src.name).value.id)
  {
    if src.name == "" || src.name in st.names then st
    else
      var title := TitleFor(list, src.id);
      match FindByName(external, src.name)
      case None => MergeState(st.output + [DetailSource(st.maxId + 1, src.name, title)], st.names + {src.name}, st.maxId + 1)
      case Some(e) => MergeState(st.output + [DetailSource(e.id, src.name, title)], st.names + {src.name}, st.maxId)
  }

  /** Whether a merged entry carries the id the mapping promises: that of the external
      source with its name, or one above every external id. */
  predicate IdFits(o: DetailSource, external: seq<DetailSource>)
  {
    match FindByName(external, o.name)
    case Some(e) => o.id == e.id
    case None => o.id > MaxId(external)
  }

  predicate DistinctIds(s: seq<DetailSource>)
  {
    forall i, j :: 0 <= i < j < |s| ==> s[i].id != s[j].id
  }

  /** The merge loop of `GetMergedSources` over the internal sources. */
  function MergeAll(internal: seq<DetailSource>, external: seq<DetailSource>, list: seq<Source>): (st: MergeState)
    ensures |st.output| <= |internal|
  {
    if internal == [] then MergeState([], {}, MaxId(external))
    else MergeStep(MergeAll(internal[..|internal| - 1], external, list), internal[|internal| - 1], external, list)
  }

  /** Whether some internal source carries the name `n`. */
  ghost predicate NameListed(internal: seq<DetailSource>, n: string)
  {
    exists k :: 0 <= k < |internal| && internal[k].name == n
  }

  /** Each non-empty internal name is published once, and nothing else is. */
  ghost predicate NamesPublished(st: MergeState, internal: seq<DetailSource>)
  {
    && (forall n :: n in st.names <==> n != "" && NameListed(internal, n))
    && OutputNamed(st)
  }

  /** The output carries exactly the names seen, each once. */
  ghost predicate OutputNamed(st: MergeState)
  {
    && (forall i :: 0 <= i < |st.output| ==> st.output[i].name in st.names)
    && (forall n :: n in st.names ==> exists i :: 0 <= i < |st.output| && st.output[i].name == n)
    && (forall i, j :: 0 <= i < j < |st.output| ==> st.output[i].name != st.output[j].name)
  }

  /** Appending an entry under a name not seen before keeps the output named. */
  lemma OutputNamedStep(st0: MergeState, st: MergeState, name: string)
    requires OutputNamed(st0) && name !in st0.names
    requires st.names == st0.names + {name} && |st.output| == |st0.output| + 1
    requires forall k :: 0 <= k < |st0.output| ==> st.output[k] == st0.output[k]
    requires st.output[|st0.output|].name == name
    ensures OutputNamed(st)
  {
    var last := |st0.output|;
    forall n | n in st.names
      ensures exists i :: 0 <= i < |st.output| && st.output[i].name == n
    {
      if n == name {
        assert st.output[last].name == n;
      } else {
        var i :| 0 <= i < |st0.output| && st0.output[i].name == n;
        assert st.output[i].name == n;
      }
    }
    forall i | 0 <= i < |st.output|
      ensures st.output[i].name in st.names
    {
      if i < last {
        assert st.output[i] == st0.output[i];
      }
    }
    forall i, j | 0 <= i < j < |st.output|
      ensures st.output[i].name != st.output[j].name
    {
      assert st.output[i] == st0.output[i];
      if j < last {
        assert st.output[j] == st0.output[j];
      }
    }
  }

  /** What a merge step does to the names and the output, whatever id it assigns. */
  lemma MergeStepShape(st0: MergeState, src: DetailSource, external: seq<DetailSource>, list: seq<Source>)
    ensures var st := MergeStep(st0, src, external, list);
      if src.name == "" || src.name in st0.names then st == st0
      else && st.names == st0.names + {src.name}
           && |st.output| == |st0.output| + 1
           && (forall k :: 0 <= k < |st0.output| ==> st.output[k] == st0.output[k])
           && st.output[|st0.output|].name == src.name
  {
  }

  lemma {:induction false} NameListedExtends(prefix: seq<DetailSource>, src: DetailSource, n: string)
    ensures NameListed(prefix + [src], n) <==> NameListed(prefix, n) || n == src.name
  {
    var internal := prefix + [src];
    if NameListed(internal, n) {
      var k :| 0 <= k < |internal| && internal[k].name == n;
      if k < |prefix| {
        assert prefix[k] == internal[k];
      }
    }
    if NameListed(prefix, n) {
      var k :| 0 <= k < |prefix| && prefix[k].name == n;
      assert internal[k] == prefix[k];
    }
    assert internal[|prefix|] == src;
  }

  lemma {:induction false} MergeAllNames(internal: seq<DetailSource>, external: seq<DetailSource>, list: seq<Source>)
    ensures NamesPublished(MergeAll(internal, external, list), internal)
  {
    if internal != [] {
      var prefix := internal[..|internal| - 1];
      var src := internal[|internal| - 1];
      assert internal == prefix + [src];
      MergeAllNames(prefix, external, list);
      var st0 := MergeAll(prefix, external, list);
      var st := MergeStep(st0, src, external, list);
      assert st == MergeAll(internal, external, list);
      MergeStepShape(st0, src, external, list);
      forall n
        ensures n in st.names <==> n != "" && NameListed(internal, n)
      {
        NameListedExtends(prefix, src, n);
      }
      if !(src.name == "" || src.name in st0.names) {
        OutputNamedStep(st0, st, src.name);
      }
    }
  }

  /** Every published id is the matching external id or a fresh one above all external ids. */
  predicate IdsAssigned(st: MergeState, external: seq<DetailSource>)
  {
    && st.maxId >= MaxId(external)
    && (forall i :: 0 <= i < |st.output| ==> st.output[i].id <= st.maxId)
    && (forall i :: 0 <= i < |st.output| ==> IdFits(st.output[i], external))
  }

  lemma {:induction false} MergeAllIds(internal: seq<DetailSource>, external: seq<DetailSource>, list: seq<Source>)
    ensures IdsAssigned(MergeAll(internal, external, list), external)
  {
    if internal != [] {
      var prefix := internal[..|internal| - 1];
      var src := internal[|internal| - 1];
      MergeAllIds(prefix, external, list);
      var st0 := MergeAll(prefix, external, list);
      var st := MergeStep(st0, src, external, list);
      if !(src.name == "" || src.name in st0.names) {
        assert forall k :: 0 <= k < |st0.output| ==> st.output[k] == st0.output[k];
        match FindByName(external, src.name)
        case None =>
        case Some(e) =>
          var k :| 0 <= k < |external| && external[k] == e;
      }
    }
  }

  /** Every published entry is titled after the first internal source with its name. */
  predicate TitlesFromFirst(st: MergeState, internal: seq<DetailSource>, list: seq<Source>)
  {
    forall i :: 0 <= i < |st.output| ==>
      var first := FindByName(internal, st.output[i].name);
      first.Some? && st.output[i].title == TitleFor(list, first.value.id)
  }

  lemma {:induction false} MergeAllTitles(internal: seq<DetailSource>, external: seq<DetailSource>, list: seq<Source>)
    ensures TitlesFromFirst(MergeAll(internal, external, list), internal, list)
  {
    if internal != [] {
      var prefix := internal[..|internal| - 1];
      var src := internal[|internal| - 1];
      MergeAllTitles(prefix, external, list);
      MergeAllNames(prefix, external, list);
      assert prefix + [src] == internal;
      FindByNameExtends(prefix, src);
      var st0 := MergeAll(prefix, external, list);
      var st := MergeStep(st0, src, external, list);
      assert st == MergeAll(internal, external, list);
      MergeStepShape(st0, src, external, list);
      var last := |st0.output|;
      if !(src.name == "" || src.name in st0.names) {
        assert st.output[last].title == TitleFor(list, src.id);
        assert !NameListed(prefix, src.name);
        assert FindByName(prefix, src.name).None?;
        assert FindByName(internal, src.name) == Some(src);
      }
      forall i | 0 <= i < |st.output|
        ensures var first := FindByName(internal, st.output[i].name);
          first.Some? && st.output[i].title == TitleFor(list, first.value.id)
      {
        if i < last {
          var o := st0.output[i];
          assert st.output[i] == o;
          assert FindByName(prefix, o.name).Some? && o.title == TitleFor(list, FindByName(prefix, o.name).value.id);
          assert FindByName(internal, o.name) == FindByName(prefix, o.name);
        } else {
          assert i == last;
        }
      }
    }
  }

  /** With distinct external ids, the published ids are distinct. */
  lemma {:induction false} MergeAllDistinctIds(internal: seq<DetailSource>, external: seq<DetailSource>, list: seq<Source>)
    requires DistinctIds(external)
    ensures DistinctIds(MergeAll(internal, external, list).output)
  {
    if internal != [] {
      var prefix := internal[..|internal| - 1];
      var src := internal[|internal| - 1];
      MergeAllDistinctIds(prefix, external, list);
      MergeAllNames(prefix, external, list);
      MergeAllIds(prefix, external, list);
      var st0 := MergeAll(prefix, external, list);
      if !(src.name == "" || src.name in st0.names) {
        NewIdDiffers(st0, src, external, list);
      }
    }
  }

  /** Looking a name up in a longer list finds the same entry if the shorter list had one,
      and otherwise the entry appended, if it carries the name. */
  lemma FindByNameExtends(prefix: seq<DetailSource>, src: DetailSource)
    ensures forall n :: FindByName(prefix, n).Some? ==> FindByName(prefix + [src], n) == FindByName(prefix, n)
    ensures FindByName(prefix, src.name).None? ==> FindByName(prefix + [src], src.name) == Some(src)
  {
    forall n | FindByName(prefix, n).Some?
      ensures FindByName(prefix + [src], n) == FindByName(prefix, n)
    {
      FindByNamePrefix(prefix, [src], n);
    }
    if FindByName(prefix, src.name).None? {
      FindByNameAppend(prefix, src);
    }
  }

  lemma {:induction false} FindByNamePrefix(a: seq<DetailSource>, b: seq<DetailSource>, n: string)
    requires FindByName(a, n).Some?
    ensures FindByName(a + b, n) == FindByName(a, n)
  {
    assert a != [];
    assert (a + b)[0] == a[0];
    if a[0].name != n {
      assert (a + b)[1..] == a[1..] + b;
      FindByNamePrefix(a[1..], b, n);
    }
  }

  lemma {:induction false} FindByNameAppend(a: seq<DetailSource>, src: DetailSource)
    requires FindByName(a, src.name).None?
    ensures FindByName(a + [src], src.name) == Some(src)
  {
    if a != [] {
      assert (a + [src])[1..] == a[1..] + [src];
      FindByNameAppend(a[1..], src);
    }
  }

  /** The entry a merge step appends has an id none of the earlier entries has. */
  lemma NewIdDiffers(st0: MergeState, src: DetailSource, external: seq<DetailSource>, list: seq<Source>)
    requires DistinctIds(external) && DistinctIds(st0.output)
    requires st0.maxId >= MaxId(external)
    requires forall i :: 0 <= i < |st0.output| ==> st0.output[i].id <= st0.maxId
    requires forall i :: 0 <= i < |st0.output| ==> st0.output[i].name in st0.names
    requires forall i :: 0 <= i < |st0.output| ==> IdFits(st0.output[i], external)
    requires src.name != "" && src.name !in st0.names
    ensures DistinctIds(MergeStep(st0, src, external, list).output)
  {
    var st := MergeStep(st0, src, external, list);
    var n := |st0.output|;
    assert st.output == st0.output + [st.output[n]];
    var id := st.output[n].id;
    match FindByName(external, src.name)
    case None =>
      assert id == st0.maxId + 1;
    case Some(e) =>
      var k :| 0 <= k < |external| && external[k] == e;
      assert id == e.id;
      forall i | 0 <= i < n
        ensures st0.output[i].id != id
      {
        var o := st0.output[i];
        assert o.name != src.name;
        match FindByName(external, o.name)
        case None =>
        case Some(e2) =>
          var k2 :| 0 <= k2 < |external| && external[k2] == e2;
          assert k != k2;
      }
  }

  /** `GetMergedSources`: `None` when any of the three queries fails. */
  function Merged(internal: Option<seq<DetailSource>>, external: Option<seq<DetailSource>>,
                  list: Option<seq<Source>>): (r: Option<seq<DetailSource>>)
    ensures r.Some? <==> internal.Some? && external.Some? && list.Some?
  {
    if internal.None? || external.None? || list.None? then None
    else Some(MergeAll(internal.value, external.value, list.value).output)
  }

  /** `SelectSource`: the internal id handed to the base capturer, or `None` when the
      wrapper returns false before reaching it. `internalAgain` is the answer of the second
      internal-source query. */
  function SelectSource(id: int, internal: Option<seq<DetailSource>>, external: Option<seq<DetailSource>>,
                        list: Option<seq<Source>>, internalAgain: Option<seq<DetailSource>>): (r: Option<int>)
    ensures r.Some? ==> Merged(internal, external, list).Some? && internalAgain.Some?
    ensures r.Some? ==> exists s :: s in internalAgain.value && s.id == r.value
  {
    match Merged(internal, external, list)
    case None => None
    case Some(merged) =>
      match FindById(merged, id)
      case None => None
      case Some(entry) =>
        if internalAgain.None? then None
        else
          match FindByName(internalAgain.value, entry.name)
          case None => None
          case Some(s) => Some(s.id)
  }

  /** Selecting an id that `GetSourceList` published forwards the id of the first internal
      source with that entry's name, when the queries answer as before. */
  lemma SelectPublishedSource(internal: seq<DetailSource>, external: seq<DetailSource>, list: seq<Source>, i: nat)
    requires DistinctIds(external)
    requires i < |MergeAll(internal, external, list).output|
    ensures var entry := MergeAll(internal, external, list).output[i];
      && FindByName(internal, entry.name).Some?
      && SelectSource(entry.id, Some(internal), Some(external), Some(list), Some(internal))
        == Some(FindByName(internal, entry.name).value.id)
  {
    var st := MergeAll(internal, external, list);
    var out := st.output;
    var entry := out[i];
    MergeAllDistinctIds(internal, external, list);
    MergeAllTitles(internal, external, list);
    assert FindByName(internal, entry.name).Some? by {
      assert TitlesFromFirst(st, internal, list);
    }
    assert Merged(Some(internal), Some(external), Some(list)) == Some(out);
    FindByIdIsUnique(out, i);
  }

  lemma {:induction false} FindByIdIsUnique(s: seq<DetailSource>, i: nat)
    requires DistinctIds(s) && i < |s|
    ensures FindById(s, s[i].id) == Some(s[i])
  {
    if i > 0 {
      assert DistinctIds(s[1..]) by {
        forall a, b | 0 <= a < b < |s[1..]|
          ensures s[1..][a].id != s[1..][b].id
        {
          assert s[1..][a] == s[a + 1] && s[1..][b] == s[b + 1];
        }
      }
      assert s[0].id != s[i].id;
      FindByIdIsUnique(s[1..], i - 1);
    }
  }

  /** An id no published entry carries is rejected. */
  lemma SelectUnknownIdFails(id: int, internal: seq<DetailSource>, external: seq<DetailSource>,
                             list: seq<Source>, internalAgain: Option<seq<DetailSource>>)
    requires forall o :: o in MergeAll(internal, external, list).output ==> o.id != id
    ensures SelectSource(id, Some(internal), Some(external), Some(list), internalAgain).None?
  {
  }

  /** `GetMergedSources`, as the loops that compute it. */
  method GetMergedSources(internal: Option<seq<DetailSource>>, external: Option<seq<DetailSource>>,
                          list: Option<seq<Source>>)
    returns (ok: bool, output: seq<DetailSource>)
    ensures ok <==> Merged(internal, external, list).Some?
    ensures ok ==> output == Merged(internal, external, list).value
  {
    output := [];
    if internal.None? || external.None? || list.None? {
      return false, output;
    }
    var ext := external.value;
    var maxSourceId := 0;
    var i := 0;
    while i < |ext|
      invariant 0 <= i <= |ext|
      invariant maxSourceId == MaxId(ext[..i])
    {
      assert ext[..i + 1][..i] == ext[..i];
      maxSourceId := Max(ext[i].id, maxSourceId);
      i := i + 1;
    }
    assert ext[..i] == ext;
    var names: set<string> := {};
    var srcs := internal.value;
    var j := 0;
    while j < |srcs|
      invariant 0 <= j <= |srcs|
      invariant MergeState(output, names, maxSourceId) == MergeAll(srcs[..j], ext, list.value)
    {
      assert srcs[..j + 1][..j] == srcs[..j];
      var src := srcs[j];
      assert MergeAll(srcs[..j + 1], ext, list.value) == MergeStep(MergeAll(srcs[..j], ext, list.value), src, ext, list.value);
      if src.name != "" && src.name !in names {
        names := names + {src.name};
        var title := TitleFor(list.value, src.id);
        var id: int;
        match FindByName(ext, src.name) {
          case None =>
            maxSourceId := maxSourceId + 1;
            id := maxSourceId;
          case Some(e) =>
            id := e.id;
        }
        output := output + [DetailSource(id, src.name, title)];
      }
      j := j + 1;
    }
    assert srcs[..j] == srcs;
    ok := true;
  }

  /** `GetSourceList`: the merged entries as (id, title) pairs, appended to `sources`. */
  method GetSourceList(internal: Option<seq<DetailSource>>, external: Option<seq<DetailSource>>,
                       list: Option<seq<Source>>, sources: seq<Source>)
    returns (ok: bool, result: seq<Source>)
    ensures ok <==> Merged(internal, external, list).Some?
    ensures !ok ==> result == sources
    ensures ok ==> var merged := Merged(internal, external, list).value;
      && |result| == |sources| + |merged| && result[..|sources|] == sources
      && forall k :: 0 <= k < |merged| ==> result[|sources| + k] == Source(merged[k].id, merged[k].title)
  {
    var merged;
    ok, merged := GetMergedSources(internal, external, list);
    result := sources;
    if !ok {
      return;
    }
    var k := 0;
    while k < |merged|
      invariant 0 <= k <= |merged|
      invariant |result| == |sources| + k && result[..|sources|] == sources
      invariant forall m :: 0 <= m < k ==> result[|sources| + m] == Source(merged[m].id, merged[m].title)
    {
      result := result + [Source(merged[k].id, merged[k].title)];
      k := k + 1;
    }
  }
}
