/** The distribution archive: bounded copying, the walk over its ustar members (the ustar
    Interchange Format of the pax utility, IEEE Std 1003.1-2017), and the extraction of
    the selected ones. */
module Archive {
  import opened Prelude

  newtype byte = x: int | 0 <= x < 256

  const BLOCK: nat := 512
  const CHUNK: nat := 128 * 1024
  const MIB: nat := 1024 * 1024
  const MAX_TAR: nat := 80 * MIB
  const MAX_SELECTED: nat := 8 * MIB
  const MAX_OTHER: nat := 32 * MIB

  const PAIR := {"pueue", "pueued"}
  const MEMBERS := PAIR + {"delegate", "delegate-run"}

  datatype Fault =
    | TooLong | ShortWrite | ShortRead
    | TruncatedHeader | BadHeader | BadEndMarker | TrailingData | UnexpectedMember | NotPlain | BadSizeOrMode
    | TruncatedMember | MissingMembers

  // ---------------------------------------------------------------- streams

  /** A readable stream. A read returns any nonempty part of what is left, up to what was
      asked for, and nothing only at the end. */
  class Source {
    const data: seq<byte>
    var pos: nat

    constructor (bytes: seq<byte>)
      ensures data == bytes && pos == 0 && Valid()
    {
      data, pos := bytes, 0;
    }

    predicate Valid()
      reads this
    {
      pos <= |data|
    }

    function Rest(): seq<byte>
      requires Valid()
      reads this
    {
      data[pos..]
    }

    method Read(n: nat) returns (chunk: seq<byte>)
      requires Valid()
      modifies this
      ensures Valid() && |chunk| <= n && old(Rest()) == chunk + Rest()
      ensures chunk == [] <==> n == 0 || old(Rest()) == []
    {
      var most := if n <= |data| - pos then n else |data| - pos;
      var k: int := *;
      if k < 1 || most < k { k := most; }
      chunk := data[pos..pos + k];
      pos := pos + k;
    }
  }

  /** A writable stream; an unreliable one may write less than it was given. */
  class Target {
    const reliable: bool
    var content: seq<byte>

    constructor (r: bool)
      ensures reliable == r && content == []
    {
      reliable, content := r, [];
    }

    method Write(chunk: seq<byte>) returns (written: nat)
      modifies this
      ensures written <= |chunk| && content == old(content) + chunk[..written]
      ensures reliable ==> written == |chunk|
    {
      var n: int := *;
      written := if reliable || n < 0 || |chunk| < n then |chunk| else n;
      content := content + chunk[..written];
    }
  }

  function Min(a: nat, b: nat): nat {
    if a <= b then a else b
  }

  /** Copy a stream within a bound: it succeeds exactly when the stream fits, and then it
      copied it verbatim; it never writes more than the bound. */
  method CopyBounded(source: Source, target: Target, limit: nat) returns (r: Result<nat, Fault>)
    requires source.Valid()
    modifies source, target
    ensures source.Valid()
    ensures r.Ok? ==>
        r.value == |old(source.Rest())| <= limit && target.content == old(target.content) + old(source.Rest())
    ensures target.reliable ==> (r.Ok? <==> |old(source.Rest())| <= limit)
    ensures old(target.content) <= target.content && |target.content| <= |old(target.content)| + limit
    ensures target.content <= old(target.content) + old(source.Rest())
  {
    var total := 0;
    ghost var whole, before := source.Rest(), target.content;
    ghost var copied: seq<byte> := [];
    assert whole == copied + source.Rest() && before == before + copied;
    while true
      invariant source.Valid()
      invariant whole == copied + source.Rest() && |copied| == total <= limit
      invariant target.content == before + copied
      decreases |source.Rest()|
    {
      var chunk := source.Read(Min(CHUNK, limit - total + 1));
      CopyStep(whole, before, copied, chunk, source.Rest());
      if chunk == [] { return Ok(total); }
      total := total + |chunk|;
      if total > limit { return Err(TooLong); }
      var written := target.Write(chunk);
      if written != |chunk| {
        PartialCopy(whole, before, copied, chunk, source.Rest(), written);
        return Err(ShortWrite);
      }
      assert chunk[..written] == chunk;
      copied := copied + chunk;
    }
  }

  lemma CopyStep(whole: seq<byte>, before: seq<byte>, copied: seq<byte>, chunk: seq<byte>, rest: seq<byte>)
    requires whole == copied + (chunk + rest)
    ensures whole == (copied + chunk) + rest
    ensures (before + copied) + chunk == before + (copied + chunk)
    ensures before <= before + copied <= before + whole
    ensures chunk == [] && rest == [] ==> copied == whole
    ensures |whole| == |copied| + |chunk| + |rest|
  {
    assert before + whole == (before + copied) + (chunk + rest);
  }

  lemma PartialCopy(whole: seq<byte>, before: seq<byte>, copied: seq<byte>, chunk: seq<byte>, rest: seq<byte>,
      written: nat)
    requires whole == (copied + chunk) + rest && written <= |chunk|
    ensures before <= (before + copied) + chunk[..written] <= before + whole
  {
    assert before + whole == ((before + copied) + chunk[..written]) + (chunk[written..] + rest);
    assert (before + copied) + chunk[..written] == before + (copied + chunk[..written]);
  }

  // ---------------------------------------------------------------- members

  /** What a member header says: an executable mode has some execute bit, a special one a
      set-user-ID, set-group-ID or sticky bit. */
  datatype Header = Header(name: string, regular: bool, linked: bool, size: int, executable: bool, special: bool)

  datatype Extent = Extent(name: string, offset: nat, size: nat)

  function Limit(name: string): nat {
    if name in PAIR then MAX_SELECTED else MAX_OTHER
  }

  /** Sizes are padded to whole blocks. */
  function Padded(size: nat): (r: nat)
    ensures size <= r < size + BLOCK && r % BLOCK == 0
  {
    (size + 511) / 512 * 512
  }

  predicate Zero(bytes: seq<byte>) {
    forall i :: 0 <= i < |bytes| ==> bytes[i] == 0
  }

  predicate Legal(h: Header) {
    h.regular && !h.linked && 0 < h.size <= Limit(h.name) && h.executable && !h.special
  }

  /** The members from a position on; `decode` reads one header block. */
  function Scan(data: seq<byte>, decode: seq<byte> -> Option<Header>, pos: nat,
      seen: set<string>): Result<seq<Extent>, Fault>
    requires pos <= |data|
    decreases |data| - pos
  {
    if |data| - pos < BLOCK then Err(TruncatedHeader)
    else if Zero(data[pos..pos + BLOCK]) then
      if |data| - pos < 2 * BLOCK || !Zero(data[pos + BLOCK..pos + 2 * BLOCK]) then Err(BadEndMarker)
      else if !Zero(data[pos + 2 * BLOCK..]) then Err(TrailingData)
      else if seen != MEMBERS then Err(MissingMembers)
      else Ok([])
    else match decode(data[pos..pos + BLOCK])
      case None => Err(BadHeader)
      case Some(h) =>
        if h.name !in MEMBERS || h.name in seen then Err(UnexpectedMember)
        else if !h.regular || h.linked then Err(NotPlain)
        else if !(0 < h.size <= Limit(h.name)) || !h.executable || h.special then Err(BadSizeOrMode)
        else
          var offset := pos + BLOCK;
          var following := offset + Padded(h.size);
          if following > |data| then Err(TruncatedMember)
          else match Scan(data, decode, following, seen + {h.name})
            case Err(e) => Err(e)
            case Ok(rest) => Ok([Extent(h.name, offset, h.size)] + rest)
  }

  function Selected(extents: seq<Extent>): seq<Extent> {
    if extents == [] then []
    else (if extents[0].name in PAIR then [extents[0]] else []) + Selected(extents[1..])
  }

  /** The walk over the container. It keeps the selected members in the order found. */
  method ValidateMembers(data: seq<byte>, decode: seq<byte> -> Option<Header>) returns (r: Result<seq<Extent>, Fault>)
    ensures match Scan(data, decode, 0, {})
            case Err(e) => r == Err(e)
            case Ok(extents) => r == Ok(Selected(extents))
  {
    var selected: seq<Extent> := [];
    var seen: set<string> := {};
    var pos := 0;
    while true
      invariant pos <= |data|
      invariant match Scan(data, decode, pos, seen)
                case Err(e) => Scan(data, decode, 0, {}) == Err(e)
                case Ok(rest) =>
                  && Scan(data, decode, 0, {}).Ok?
                  && Selected(Scan(data, decode, 0, {}).value) == selected + Selected(rest)
      decreases |data| - pos
    {
      if |data| - pos < BLOCK { return Err(TruncatedHeader); }
      var header := data[pos..pos + BLOCK];
      if Zero(header) {
        if |data| - pos < 2 * BLOCK || !Zero(data[pos + BLOCK..pos + 2 * BLOCK]) { return Err(BadEndMarker); }
        if !Zero(data[pos + 2 * BLOCK..]) { return Err(TrailingData); }
        break;
      }
      var decoded := decode(header);
      if decoded.None? { return Err(BadHeader); }
      var h := decoded.value;
      if h.name !in MEMBERS || h.name in seen { return Err(UnexpectedMember); }
      if !h.regular || h.linked { return Err(NotPlain); }
      if !(0 < h.size <= Limit(h.name)) || !h.executable || h.special { return Err(BadSizeOrMode); }
      var offset := pos + BLOCK;
      var following := offset + Padded(h.size);
      if following > |data| { return Err(TruncatedMember); }
      SelectFirst(Extent(h.name, offset, h.size), Scan(data, decode, following, seen + {h.name}), selected);
      seen := seen + {h.name};
      if h.name in PAIR { selected := selected + [Extent(h.name, offset, h.size)]; }
      pos := following;
    }
    assert selected + [] == selected;
    if seen != MEMBERS { return Err(MissingMembers); }
    return Ok(selected);
  }

  lemma SelectFirst(e: Extent, rest: Result<seq<Extent>, Fault>, selected: seq<Extent>)
    ensures rest.Ok? ==>
      selected + Selected([e] + rest.value)
        == (if e.name in PAIR then selected + [e] else selected) + Selected(rest.value)
  {
    if rest.Ok? { assert ([e] + rest.value)[1..] == rest.value; }
  }

  // ---------------------------------------------------------------- what acceptance means

  /** The members lie one after another from `pos`, each within its own padded extent, and
      from the last on there are only zeros, at least two blocks of them. */
  ghost predicate Tiled(data: seq<byte>, extents: seq<Extent>, pos: nat)
    decreases |extents|
  {
    if extents == [] then pos + 2 * BLOCK <= |data| && Zero(data[pos..])
    else
      && extents[0].offset == pos + BLOCK
      && 0 < extents[0].size <= Limit(extents[0].name)
      && Tiled(data, extents[1..], extents[0].offset + Padded(extents[0].size))
  }

  /** Every name is used once and together they are the missing ones. */
  ghost predicate NamesComplete(extents: seq<Extent>, seen: set<string>)
    decreases |extents|
  {
    if extents == [] then seen == MEMBERS
    else
      extents[0].name in MEMBERS && extents[0].name !in seen && NamesComplete(extents[1..], seen + {extents[0].name})
  }

  lemma {:induction false} AcceptedTiles(data: seq<byte>, decode: seq<byte> -> Option<Header>, pos: nat,
      seen: set<string>)
    requires pos <= |data| && Scan(data, decode, pos, seen).Ok?
    ensures Tiled(data, Scan(data, decode, pos, seen).value, pos)
    ensures NamesComplete(Scan(data, decode, pos, seen).value, seen)
    decreases |data| - pos
  {
    hide Zero;
    var extents := Scan(data, decode, pos, seen).value;
    if Zero(data[pos..pos + BLOCK]) {
      ZeroJoin(data, pos);
    } else {
      var h := decode(data[pos..pos + BLOCK]).value;
      var following := pos + BLOCK + Padded(h.size);
      AcceptedTiles(data, decode, following, seen + {h.name});
      assert extents[1..] == Scan(data, decode, following, seen + {h.name}).value;
    }
  }

  lemma ZeroJoin(data: seq<byte>, pos: nat)
    requires pos + 2 * BLOCK <= |data|
    requires Zero(data[pos..pos + BLOCK]) && Zero(data[pos + BLOCK..pos + 2 * BLOCK]) && Zero(data[pos + 2 * BLOCK..])
    ensures Zero(data[pos..])
  {
    assert data[pos..] == data[pos..pos + BLOCK] + data[pos + BLOCK..pos + 2 * BLOCK] + data[pos + 2 * BLOCK..];
  }

  lemma {:induction false} TilesDisjoint(data: seq<byte>, extents: seq<Extent>, pos: nat)
    requires Tiled(data, extents, pos)
    ensures forall i :: 0 <= i < |extents| ==>
      pos + BLOCK <= extents[i].offset && extents[i].offset + Padded(extents[i].size) + 2 * BLOCK <= |data|
    ensures forall i, k :: 0 <= i < k < |extents| ==>
      extents[i].offset + Padded(extents[i].size) + BLOCK <= extents[k].offset
    ensures pos + 2 * BLOCK <= |data|
    decreases |extents|
  {
    if extents != [] {
      TilesDisjoint(data, extents[1..], extents[0].offset + Padded(extents[0].size));
      assert forall i :: 0 < i < |extents| ==> extents[i] == extents[1..][i - 1];
    }
  }

  function Names(extents: seq<Extent>): set<string> {
    if extents == [] then {} else {extents[0].name} + Names(extents[1..])
  }

  lemma {:induction false} CompleteMeans(extents: seq<Extent>, seen: set<string>)
    requires NamesComplete(extents, seen)
    ensures seen + Names(extents) == MEMBERS && seen !! Names(extents)
    ensures forall i :: 0 <= i < |extents| ==> extents[i].name in Names(extents)
    ensures forall i, k :: 0 <= i < k < |extents| ==> extents[i].name != extents[k].name
    ensures |extents| + |seen| == |MEMBERS|
    decreases |extents|
  {
    if extents != [] {
      CompleteMeans(extents[1..], seen + {extents[0].name});
      assert forall i :: 0 < i < |extents| ==> extents[i] == extents[1..][i - 1];
    }
  }

  /** An accepted archive holds exactly the four distribution members, each once, in
      disjoint in-bounds extents of legal size, and only zeros after the last. */
  lemma AcceptedLayout(data: seq<byte>, decode: seq<byte> -> Option<Header>)
    requires Scan(data, decode, 0, {}).Ok?
    ensures var extents := Scan(data, decode, 0, {}).value;
      && |extents| == 4 && Names(extents) == MEMBERS
      && (forall i, k :: 0 <= i < k < |extents| ==>
            && extents[i].name != extents[k].name
            && extents[i].offset + extents[i].size <= extents[k].offset)
      && (forall i :: 0 <= i < |extents| ==> extents[i].offset + extents[i].size <= |data|)
      && Tiled(data, extents, 0)
  {
    AcceptedTiles(data, decode, 0, {});
    var extents := Scan(data, decode, 0, {}).value;
    TilesDisjoint(data, extents, 0);
    CompleteMeans(extents, {});
    assert {} + Names(extents) == Names(extents);
    assert |MEMBERS| == 4;
  }

  lemma {:induction false} SelectedNames(extents: seq<Extent>)
    ensures Names(Selected(extents)) == Names(extents) * PAIR
    ensures forall e :: e in Selected(extents) ==> e in extents
    decreases |extents|
  {
    if extents != [] {
      SelectedNames(extents[1..]);
      var chosen := Selected(extents);
      if extents[0].name in PAIR {
        assert chosen[1..] == Selected(extents[1..]);
        assert Names(chosen) == {extents[0].name} + Names(chosen[1..]);
      } else {
        assert chosen == Selected(extents[1..]);
      }
    }
  }

  // ---------------------------------------------------------------- round trip

  datatype Packed = Packed(header: Header, payload: seq<byte>)

  function Zeros(n: nat): (z: seq<byte>)
    ensures |z| == n && Zero(z)
  {
    seq(n, _ => 0 as byte)
  }

  /** One member: its header block and its payload, padded with zeros. */
  function PackOne(encode: Header -> seq<byte>, m: Packed): seq<byte> {
    encode(m.header) + m.payload + Zeros(Padded(|m.payload|) - |m.payload|)
  }

  function Pack(encode: Header -> seq<byte>, ms: seq<Packed>): seq<byte> {
    if ms == [] then [] else PackOne(encode, ms[0]) + Pack(encode, ms[1..])
  }

  /** The header of a legal member is one nonzero block, and decoding gives it back. */
  ghost predicate Inverse(encode: Header -> seq<byte>, decode: seq<byte> -> Option<Header>) {
    forall h: Header :: h.name in MEMBERS && Legal(h) ==>
      |encode(h)| == BLOCK && !Zero(encode(h)) && decode(encode(h)) == Some(h)
  }

  /** The four members in some order, each legal, with its payload. */
  predicate Distribution(ms: seq<Packed>, seen: set<string>)
    decreases |ms|
  {
    if ms == [] then seen == MEMBERS
    else
      var h := ms[0].header;
      && h.name in MEMBERS && h.name !in seen && Legal(h) && h.size == |ms[0].payload|
      && Distribution(ms[1..], seen + {h.name})
  }

  function Extents(ms: seq<Packed>, pos: nat): seq<Extent> {
    if ms == [] then []
    else
      [Extent(ms[0].header.name, pos + BLOCK, |ms[0].payload|)]
      + Extents(ms[1..], pos + BLOCK + Padded(|ms[0].payload|))
  }

  /** What the walk sees at one packed member. */
  lemma OneMember(encode: Header -> seq<byte>, before: seq<byte>, m: Packed, after: seq<byte>)
    requires |encode(m.header)| == BLOCK
    ensures var data := before + PackOne(encode, m) + after;
      && |PackOne(encode, m)| == BLOCK + Padded(|m.payload|)
      && data[|before|..|before| + BLOCK] == encode(m.header)
      && data[|before| + BLOCK..|before| + BLOCK + |m.payload|] == m.payload
  {
    var one := PackOne(encode, m);
    var data := before + one + after;
    assert one[..BLOCK] == encode(m.header);
    assert one[BLOCK..BLOCK + |m.payload|] == m.payload;
    assert data[|before|..|before| + |one|] == one;
    assert data[|before|..|before| + BLOCK] == one[..BLOCK];
    assert data[|before| + BLOCK..|before| + BLOCK + |m.payload|] == one[BLOCK..BLOCK + |m.payload|];
  }

  lemma ScanMember(data: seq<byte>, decode: seq<byte> -> Option<Header>, pos: nat, seen: set<string>, h: Header)
    requires pos + BLOCK <= |data| && !Zero(data[pos..pos + BLOCK]) && decode(data[pos..pos + BLOCK]) == Some(h)
    requires h.name in MEMBERS && h.name !in seen && Legal(h) && pos + BLOCK + Padded(h.size) <= |data|
    ensures Scan(data, decode, pos, seen) ==
      match Scan(data, decode, pos + BLOCK + Padded(h.size), seen + {h.name})
      case Err(e) => Err(e)
      case Ok(rest) => Ok([Extent(h.name, pos + BLOCK, h.size)] + rest)
  {
    hide Zero, Padded;
  }

  lemma ScanEnd(data: seq<byte>, decode: seq<byte> -> Option<Header>, pos: nat)
    requires pos + 2 * BLOCK <= |data|
    requires Zero(data[pos..pos + BLOCK]) && Zero(data[pos + BLOCK..pos + 2 * BLOCK]) && Zero(data[pos + 2 * BLOCK..])
    ensures Scan(data, decode, pos, MEMBERS) == Ok([])
  {
  }

  lemma {:induction false} ScanPacked(
    encode: Header -> seq<byte>, decode: seq<byte> -> Option<Header>, before: seq<byte>, ms: seq<Packed>,
    tail: seq<byte>,
    seen: set<string>)
    requires Inverse(encode, decode) && Distribution(ms, seen)
    requires Zero(tail) && |tail| >= 2 * BLOCK
    ensures Scan(before + Pack(encode, ms) + tail, decode, |before|, seen) == Ok(Extents(ms, |before|))
    decreases |ms|
  {
    hide Zero, Padded, Scan;
    var data := before + Pack(encode, ms) + tail;
    if ms == [] {
      assert data == before + tail;
      ZeroTail(before, tail);
      ScanEnd(data, decode, |before|);
    } else {
      var m := ms[0];
      var one, rest := PackOne(encode, m), Pack(encode, ms[1..]);
      assert data == before + one + (rest + tail);
      assert data == (before + one) + rest + tail;
      OneMember(encode, before, m, rest + tail);
      ScanPacked(encode, decode, before + one, ms[1..], tail, seen + {m.header.name});
      ScanMember(data, decode, |before|, seen, m.header);
    }
  }

  lemma ZeroTail(before: seq<byte>, tail: seq<byte>)
    requires Zero(tail) && |tail| >= 2 * BLOCK
    ensures var data, pos := before + tail, |before|;
      && Zero(data[pos..pos + BLOCK]) && Zero(data[pos + BLOCK..pos + 2 * BLOCK]) && Zero(data[pos + 2 * BLOCK..])
  {
  }

  /** Any order of the four legal members, padded and followed by at least two zero blocks
      and nothing but zeros, is accepted with exactly their extents. */
  lemma ArchiveRoundTrip(
    encode: Header -> seq<byte>, decode: seq<byte> -> Option<Header>, ms: seq<Packed>, tail: seq<byte>)
    requires Inverse(encode, decode) && Distribution(ms, {})
    requires Zero(tail) && |tail| >= 2 * BLOCK
    ensures Scan(Pack(encode, ms) + tail, decode, 0, {}) == Ok(Extents(ms, 0))
    ensures |Extents(ms, 0)| == |ms|
    ensures forall i :: 0 <= i < |ms| ==> PayloadIn(Pack(encode, ms), tail, Extents(ms, 0)[i], ms[i])
  {
    assert [] + Pack(encode, ms) + tail == Pack(encode, ms) + tail;
    ScanPacked(encode, decode, [], ms, tail, {});
    LengthOfExtents(ms, 0);
    forall i | 0 <= i < |ms| ensures PayloadIn(Pack(encode, ms), tail, Extents(ms, 0)[i], ms[i]) {
      PayloadAt(encode, decode, [], ms, tail, {}, i);
      assert [] + Pack(encode, ms) == Pack(encode, ms);
    }
  }

  lemma {:induction false} PayloadAt(
    encode: Header -> seq<byte>, decode: seq<byte> -> Option<Header>, before: seq<byte>, ms: seq<Packed>,
    tail: seq<byte>,
    seen: set<string>, i: nat)
    requires Inverse(encode, decode) && Distribution(ms, seen) && i < |ms|
    ensures |Extents(ms, |before|)| == |ms|
    ensures PayloadIn(before + Pack(encode, ms), tail, Extents(ms, |before|)[i], ms[i])
    decreases |ms|
  {
    hide Zero, Padded, PayloadIn;
    var m := ms[0];
    var one, rest := PackOne(encode, m), Pack(encode, ms[1..]);
    assert before + Pack(encode, ms) == (before + one) + rest;
    OneMember(encode, before, m, rest + tail);
    assert |before + one| == |before| + BLOCK + Padded(|m.payload|);
    if i == 0 {
      FirstPayload(encode, before, m, rest, tail);
      LengthOfExtents(ms, |before|);
    } else {
      PayloadAt(encode, decode, before + one, ms[1..], tail, seen + {m.header.name}, i - 1);
    }
  }

  lemma {:induction false} LengthOfExtents(ms: seq<Packed>, pos: nat)
    ensures |Extents(ms, pos)| == |ms|
    decreases |ms|
  {
    if ms != [] { LengthOfExtents(ms[1..], pos + BLOCK + Padded(|ms[0].payload|)); }
  }

  /** The member's extent lies within the packed part and holds exactly its payload. */
  predicate PayloadIn(packed: seq<byte>, tail: seq<byte>, e: Extent, m: Packed) {
    && e.name == m.header.name && e.size == |m.payload| && e.offset + e.size <= |packed|
    && (packed + tail)[e.offset..e.offset + e.size] == m.payload
  }

  lemma FirstPayload(encode: Header -> seq<byte>, before: seq<byte>, m: Packed, rest: seq<byte>, tail: seq<byte>)
    requires |encode(m.header)| == BLOCK
    ensures var extent := Extent(m.header.name, |before| + BLOCK, |m.payload|);
      PayloadIn((before + PackOne(encode, m)) + rest, tail, extent, m)
  {
    OneMember(encode, before, m, rest + tail);
    assert ((before + PackOne(encode, m)) + rest) + tail == before + PackOne(encode, m) + (rest + tail);
  }

  /** Extract one member: whatever the reads return, success means its exact payload. */
  method CopyMember(container: Source, target: Target, member: Extent) returns (r: Option<Fault>)
    requires container.Valid() && member.offset <= |container.data|
    modifies container, target
    ensures container.Valid()
    ensures r == None ==>
      && member.offset + member.size <= |container.data|
      && target.content == old(target.content) + container.data[member.offset..member.offset + member.size]
    ensures target.reliable ==> (r == None <==> member.offset + member.size <= |container.data|)
  {
    container.pos := member.offset;
    var remaining := member.size;
    ghost var before := target.content;
    while remaining > 0
      invariant container.Valid() && 0 <= remaining <= member.size
      invariant container.pos == member.offset + (member.size - remaining)
      invariant target.content == before + container.data[member.offset..container.pos]
      decreases remaining
    {
      ghost var from := container.pos;
      var chunk := container.Read(Min(CHUNK, remaining));
      ReadSlice(container.data, from, chunk, container.pos);
      if chunk == [] { return Some(ShortRead); }
      var written := target.Write(chunk);
      if written != |chunk| { return Some(ShortWrite); }
      assert chunk[..written] == chunk;
      assert container.data[member.offset..container.pos]
          == container.data[member.offset..from] + container.data[from..container.pos];
      remaining := remaining - |chunk|;
    }
    assert container.pos == member.offset + member.size;
    return None;
  }

  lemma ReadSlice(data: seq<byte>, from: nat, chunk: seq<byte>, to: nat)
    requires from <= |data| && to <= |data| && data[from..] == chunk + data[to..]
    ensures to == from + |chunk| && chunk == data[from..to]
  {
    assert |data[from..]| == |chunk| + |data[to..]|;
    assert data[from..][..|chunk|] == chunk;
  }

  // ---------------------------------------------------------------- staging the pair

  /** The first member of that name. */
  function Named(extents: seq<Extent>, name: string): Extent
    requires name in Names(extents)
  {
    if extents[0].name == name then extents[0] else Named(extents[1..], name)
  }

  /** Selecting the pair keeps each member of the pair. */
  lemma {:induction false} SelectedNamed(extents: seq<Extent>, name: string)
    requires name in Names(extents) && name in PAIR
    ensures name in Names(Selected(extents)) && Named(Selected(extents), name) == Named(extents, name)
    ensures Named(extents, name) in extents && Named(extents, name).name == name
    decreases |extents|
  {
    SelectedNames(extents);
    if extents[0].name != name {
      SelectedNamed(extents[1..], name);
      var chosen := Selected(extents);
      if extents[0].name in PAIR {
        assert chosen[1..] == Selected(extents[1..]);
      } else {
        assert chosen == Selected(extents[1..]);
      }
    }
  }

  lemma {:induction false} NamedAt(extents: seq<Extent>, i: nat)
    requires i < |extents|
    requires forall k, l :: 0 <= k < l < |extents| ==> extents[k].name != extents[l].name
    ensures extents[i].name in Names(extents) && Named(extents, extents[i].name) == extents[i]
    decreases |extents|
  {
    if i > 0 {
      NamedAt(extents[1..], i - 1);
      assert extents[1..][i - 1] == extents[i];
    }
  }

  /** The bytes of a member of the archive. */
  ghost function Contents(data: seq<byte>, decode: seq<byte> -> Option<Header>, name: string): seq<byte>
    requires Scan(data, decode, 0, {}).Ok? && name in MEMBERS
  {
    AcceptedLayout(data, decode);
    var extents := Scan(data, decode, 0, {}).value;
    NamedWithin(extents, name);
    var member := Named(extents, name);
    data[member.offset..member.offset + member.size]
  }

  lemma {:induction false} NamedWithin(extents: seq<Extent>, name: string)
    requires name in Names(extents)
    ensures Named(extents, name) in extents
    decreases |extents|
  {
    if extents[0].name != name { NamedWithin(extents[1..], name); }
  }

  /** What is copied for a member of the pair is that member. */
  lemma SelectedContents(data: seq<byte>, decode: seq<byte> -> Option<Header>, role: string)
    requires Scan(data, decode, 0, {}).Ok? && role in PAIR
    ensures var selected := Selected(Scan(data, decode, 0, {}).value);
      && role in Names(selected)
      && var member := Named(selected, role);
         member.offset + member.size <= |data| && data[member.offset..member.offset + member.size]
           == Contents(data, decode, role)
  {
    hide Scan;
    AcceptedLayout(data, decode);
    SelectedNamed(Scan(data, decode, 0, {}).value, role);
  }

  /** Stage the pair: the stream is copied within its bound, the copy is validated as a whole
      before anything is extracted, and each member of the pair is copied to its own file.
      Success means the exact bytes of both; with reliable storage it is refused only for an
      oversized stream or an archive that is not accepted. */
  method StagePair(source: Source, decode: seq<byte> -> Option<Header>, reliable: bool)
    returns (r: Result<map<string, seq<byte>>, Fault>)
    requires source.Valid()
    modifies source
    ensures reliable ==> (r.Ok? <==> |old(source.Rest())| <= MAX_TAR && Scan(old(source.Rest()), decode, 0, {}).Ok?)
    ensures r.Ok? ==>
      && Scan(old(source.Rest()), decode, 0, {}).Ok? && r.value.Keys == PAIR
      && forall role :: role in PAIR ==> r.value[role] == Contents(old(source.Rest()), decode, role)
  {
    hide Scan, Selected, Names, Named, Contents;
    ghost var data := source.Rest();
    var bundle := new Target(reliable);
    var copied := CopyBounded(source, bundle, MAX_TAR);
    if copied.Err? { return Err(copied.error); }
    assert bundle.content == data;
    var container := new Source(bundle.content);
    var validated := ValidateMembers(container.data, decode);
    if validated.Err? { return Err(validated.error); }
    var roles := ["pueue", "pueued"];
    var staged: map<string, seq<byte>> := map[];
    for i := 0 to 2
      invariant container.Valid() && fresh(container)
      invariant staged.Keys == set k | 0 <= k < i :: roles[k]
      invariant forall role :: role in staged ==> role in PAIR && staged[role] == Contents(data, decode, role)
    {
      SelectedContents(data, decode, roles[i]);
      var target := new Target(reliable);
      var fault := CopyMember(container, target, Named(validated.value, roles[i]));
      if fault.Some? { return Err(fault.value); }
      staged := staged[roles[i] := target.content];
    }
    assert staged.Keys == {roles[0], roles[1]};
    return Ok(staged);
  }

  /** A packed distribution within the bound is staged with exactly the payloads that were
      packed, whatever the reads return. */
  method StageDistribution(source: Source, ghost encode: Header -> seq<byte>, decode: seq<byte> -> Option<Header>,
                           ghost ms: seq<Packed>, ghost tail: seq<byte>)
    returns (r: Result<map<string, seq<byte>>, Fault>)
    requires Inverse(encode, decode) && Distribution(ms, {})
    requires Zero(tail) && |tail| >= 2 * BLOCK
    requires source.Valid() && source.Rest() == Pack(encode, ms) + tail && |source.Rest()| <= MAX_TAR
    modifies source
    ensures r.Ok? && r.value.Keys == PAIR
    ensures forall i :: 0 <= i < |ms| && ms[i].header.name in PAIR ==> r.value[ms[i].header.name] == ms[i].payload
  {
    ArchiveRoundTrip(encode, decode, ms, tail);
    r := StagePair(source, decode, true);
    forall i | 0 <= i < |ms| && ms[i].header.name in PAIR
      ensures r.value[ms[i].header.name] == ms[i].payload
    {
      PackedContents(encode, decode, ms, tail, i);
    }
  }

  /** The bytes of a packed member are its payload. */
  lemma PackedContents(encode: Header -> seq<byte>, decode: seq<byte> -> Option<Header>, ms: seq<Packed>,
                       tail: seq<byte>, i: nat)
    requires Inverse(encode, decode) && Distribution(ms, {}) && i < |ms|
    requires Zero(tail) && |tail| >= 2 * BLOCK
    ensures Scan(Pack(encode, ms) + tail, decode, 0, {}).Ok? && ms[i].header.name in MEMBERS
    ensures Contents(Pack(encode, ms) + tail, decode, ms[i].header.name) == ms[i].payload
  {
    hide Scan, Zero, Inverse, Distribution, Pack;
    ArchiveRoundTrip(encode, decode, ms, tail);
    AcceptedLayout(Pack(encode, ms) + tail, decode);
    NamedAt(Extents(ms, 0), i);
  }
}
