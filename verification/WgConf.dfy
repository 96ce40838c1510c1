/** The VPN server's wg0.conf, as newline-terminated lines, and the awk filters that rewrite it. */
module WgConf {
  import opened Text

  type Lines = seq<string>

  // ── What the awk patterns match ──────────────────────────────────────────

  /** `^\[` */
  predicate IsBracket(line: string) {
    |line| > 0 && line[0] == '['
  }

  /** `^\[Peer\]` */
  predicate IsPeer(line: string) {
    "[Peer]" <= line
  }

  /** `^[[:space:]]*$` */
  predicate IsBlank(line: string) {
    forall c | c in line :: IsSpace(c)
  }

  predicate MentionsKey(line: string, key: string) {
    Contains(line, "PublicKey") && Contains(line, key)
  }

  predicate MentionsIp(line: string, ip: string) {
    Contains(line, "AllowedIPs") && Contains(line, ip + "/32")
  }

  /** Which buffered blocks a filter discards.
    * ByKey: the removal scripts.  StaleIp: the script that clears our address before an append. */
  datatype Rule = ByKey(key: string) | StaleIp(ip: string, key: string)

  predicate HasKey(body: Lines, key: string) {
    exists line | line in body :: MentionsKey(line, key)
  }

  predicate HasIp(body: Lines, ip: string) {
    exists line | line in body :: MentionsIp(line, ip)
  }

  /** `body`: the lines buffered after the header. */
  predicate Discards(rule: Rule, body: Lines) {
    match rule
    case ByKey(key) => HasKey(body, key)
    case StaleIp(ip, key) => HasIp(body, ip) && !HasKey(body, key)
  }

  /** The patterns by their texts: what begins with a bracket, what begins with a peer header, and what a rule
    * looks for on a line, with anything around it. */
  lemma PatternTexts(line: string, key: string, ip: string)
    ensures IsBracket(line) <==> exists post :: line == "[" + post
    ensures IsPeer(line) <==> exists post :: line == "[Peer]" + post
    ensures MentionsKey(line, key) <==>
      && (exists pre, post :: line == pre + "PublicKey" + post)
      && (exists pre, post :: line == pre + key + post)
    ensures MentionsIp(line, ip) <==>
      && (exists pre, post :: line == pre + "AllowedIPs" + post)
      && (exists pre, post :: line == pre + (ip + "/32") + post)
  {
    if IsBracket(line) {
      assert line == "[" + line[1..];
    }
    if IsPeer(line) {
      assert line == "[Peer]" + line[6..];
    }
    ContainsIff(line, "PublicKey");
    ContainsIff(line, key);
    ContainsIff(line, "AllowedIPs");
    ContainsIff(line, ip + "/32");
  }

  // ── The awk state machine ────────────────────────────────────────────────

  /** `block` is None outside a peer block, else the lines buffered so far, header first. */
  function Awk(rule: Rule, lines: Lines, block: Option<Lines>): (out: Lines)
    requires block.Some? ==> |block.value| > 0
    decreases |lines|
  {
    if lines == [] then
      (if block.Some? && !Discards(rule, block.value[1..]) then block.value else [])
    else
      var line, rest := lines[0], lines[1..];
      if IsPeer(line) then Awk(rule, rest, Some([line]))
      else if block.None? then [line] + Awk(rule, rest, None)
      else
        var b := block.value + [line];
        if IsBlank(line) || IsBracket(line) then
          (if Discards(rule, b[1..]) then Awk(rule, rest, None) else b + Awk(rule, rest, None))
        else Awk(rule, rest, Some(b))
  }

  function Filter(rule: Rule, lines: Lines): (out: Lines) {
    Awk(rule, lines, None)
  }

  // ── Chunks ───────────────────────────────────────────────────────────────

  /** A conf cut into the pieces awk treats as one: a line outside a peer block, or a peer block
    * with the line that ends it. */
  datatype Chunk = Plain(line: string) | Block(header: string, body: Lines)

  function ChunkLines(c: Chunk): (ls: Lines) {
    match c
    case Plain(line) => [line]
    case Block(header, body) => [header] + body
  }

  function Flatten(cs: seq<Chunk>): (ls: Lines) {
    if cs == [] then [] else ChunkLines(cs[0]) + Flatten(cs[1..])
  }

  function Chunks(lines: Lines, block: Option<Chunk>): (cs: seq<Chunk>)
    requires block.Some? ==> block.value.Block?
    decreases |lines|
  {
    if lines == [] then
      (if block.Some? then [block.value] else [])
    else
      var line, rest := lines[0], lines[1..];
      if IsPeer(line) then
        var more := Chunks(rest, Some(Block(line, [])));
        if block.Some? then [block.value] + more else more
      else if block.None? then [Plain(line)] + Chunks(rest, None)
      else
        var b := block.value.(body := block.value.body + [line]);
        if IsBlank(line) || IsBracket(line) then [b] + Chunks(rest, None)
        else Chunks(rest, Some(b))
  }

  function Parse(lines: Lines): (cs: seq<Chunk>) {
    Chunks(lines, None)
  }

  predicate Kept(rule: Rule, c: Chunk) {
    c.Plain? || !Discards(rule, c.body)
  }

  function Keep(rule: Rule, cs: seq<Chunk>): (r: seq<Chunk>) {
    if cs == [] then [] else if Kept(rule, cs[0]) then [cs[0]] + Keep(rule, cs[1..]) else Keep(rule, cs[1..])
  }

  /** No peer header while a peer block is still open. */
  predicate Clean(lines: Lines, open: bool)
    decreases |lines|
  {
    lines == [] ||
    var line, rest := lines[0], lines[1..];
    !(open && IsPeer(line)) && Clean(rest, IsPeer(line) || (open && !IsBlank(line) && !IsBracket(line)))
  }

  predicate Ends(line: string) {
    IsBlank(line) || IsBracket(line)
  }

  predicate Open(c: Chunk) {
    c.Block? && (c.body == [] || !Ends(c.body[|c.body| - 1]))
  }

  /** A chunk as awk cuts them; `last`: nothing follows it. */
  predicate ValidChunk(c: Chunk, last: bool) {
    match c
    case Plain(line) => !IsPeer(line)
    case Block(header, body) =>
      && IsPeer(header)
      && (forall i | 0 <= i < |body| - 1 :: !Ends(body[i]))
      && (forall i | 0 <= i < |body| :: !IsPeer(body[i]))
      && (last || !Open(c))
  }

  predicate ValidChunks(cs: seq<Chunk>) {
    cs == [] || (ValidChunk(cs[0], |cs| == 1) && ValidChunks(cs[1..]))
  }

  // ── Cutting and joining are inverse ──────────────────────────────────────

  lemma FlattenCons(c: Chunk, cs: seq<Chunk>)
    ensures Flatten([c] + cs) == ChunkLines(c) + Flatten(cs)
  {
    assert ([c] + cs)[1..] == cs;
  }

  lemma {:induction false} FlattenChunks(lines: Lines, block: Option<Chunk>)
    requires block.Some? ==> block.value.Block?
    ensures block.None? ==> Flatten(Chunks(lines, block)) == lines
    ensures block.Some? ==> Flatten(Chunks(lines, block)) == ChunkLines(block.value) + lines
    decreases |lines|
  {
    if lines == [] {
      if block.Some? {
        assert [block.value] == [block.value] + [];
        FlattenCons(block.value, []);
      }
    } else {
      var line, rest := lines[0], lines[1..];
      assert lines == [line] + rest;
      if IsPeer(line) {
        assert ChunkLines(Block(line, [])) == [line];
        FlattenChunks(rest, Some(Block(line, [])));
        if block.Some? {
          FlattenCons(block.value, Chunks(rest, Some(Block(line, []))));
        }
      } else if block.None? {
        FlattenChunks(rest, None);
        FlattenCons(Plain(line), Chunks(rest, None));
      } else {
        var b := block.value.(body := block.value.body + [line]);
        assert ChunkLines(b) + rest == ChunkLines(block.value) + lines;
        if Ends(line) {
          FlattenChunks(rest, None);
          FlattenCons(b, Chunks(rest, None));
        } else {
          FlattenChunks(rest, Some(b));
        }
      }
    }
  }

  /** Cutting a conf and joining the pieces gives the conf back. */
  lemma FlattenParse(lines: Lines)
    ensures Flatten(Parse(lines)) == lines
  {
    FlattenChunks(lines, None);
  }

  lemma {:induction false} ChunksValid(lines: Lines, block: Option<Chunk>)
    requires block.Some? ==> block.value.Block? && ValidChunk(block.value, true) && Open(block.value)
    requires Clean(lines, block.Some?)
    ensures ValidChunks(Chunks(lines, block))
    decreases |lines|
  {
    if lines != [] {
      var line, rest := lines[0], lines[1..];
      if IsPeer(line) {
        ChunksValid(rest, Some(Block(line, [])));
      } else if block.None? {
        ChunksValid(rest, None);
      } else {
        var b := block.value.(body := block.value.body + [line]);
        if Ends(line) {
          ChunksValid(rest, None);
        } else {
          ChunksValid(rest, Some(b));
        }
      }
    }
  }

  /** Lines of a block in progress, the first of which are already consumed. */
  lemma {:induction false} ChunksOfBlock(header: string, done: Lines, body: Lines, tail: Lines)
    requires ValidChunk(Block(header, done + body), true)
    requires Open(Block(header, done + body)) ==> tail == []
    ensures done == [] || !Ends(done[|done| - 1]) ==>
      && Chunks(body + tail, Some(Block(header, done)))
         == [Block(header, done + body)] + (if Open(Block(header, done + body)) then [] else Parse(tail))
      && (Clean(tail, false) ==> Clean(body + tail, true))
    decreases |body|
  {
    if done == [] || !Ends(done[|done| - 1]) {
      if body == [] {
        assert done + body == done && body + tail == tail;
      } else {
        var b := done + [body[0]];
        assert b + body[1..] == done + body;
        assert (done + body)[|done|] == body[0];
        assert (body + tail)[1..] == body[1..] + tail;
        if Ends(body[0]) {
          assert |body| == 1;
          assert done + body == b && body[1..] + tail == tail;
        } else {
          ChunksOfBlock(header, b, body[1..], tail);
        }
      }
    }
  }

  lemma ParseBlock(header: string, body: Lines, tail: Lines)
    requires ValidChunk(Block(header, body), tail == []) && Clean(tail, false)
    ensures Parse([header] + (body + tail)) == [Block(header, body)] + Parse(tail)
    ensures Clean([header] + (body + tail), false)
  {
    assert [] + body == body;
    ChunksOfBlock(header, [], body, tail);
    var lines := [header] + (body + tail);
    assert lines[0] == header && lines[1..] == body + tail;
    assert Parse(lines) == Chunks(body + tail, Some(Block(header, [])));
    if Open(Block(header, body)) {
      assert Parse(tail) == [];
    }
  }

  lemma ParsePiece(c: Chunk, tail: Lines)
    requires ValidChunk(c, tail == []) && Clean(tail, false)
    ensures Parse(ChunkLines(c) + tail) == [c] + Parse(tail)
    ensures Clean(ChunkLines(c) + tail, false)
  {
    match c
    case Plain(line) =>
      assert (ChunkLines(c) + tail)[1..] == tail;
    case Block(header, body) =>
      assert ChunkLines(c) + tail == [header] + (body + tail);
      ParseBlock(header, body, tail);
  }

  lemma FlattenEmpty(cs: seq<Chunk>)
    ensures Flatten(cs) == [] <==> cs == []
  {
  }

  /** Joining pieces awk could have cut and cutting again gives the pieces back. */
  lemma {:induction false} ParseFlatten(cs: seq<Chunk>)
    requires ValidChunks(cs)
    ensures Parse(Flatten(cs)) == cs && Clean(Flatten(cs), false)
    decreases |cs|
  {
    if cs != [] {
      var c, rest := cs[0], cs[1..];
      ParseFlatten(rest);
      FlattenEmpty(rest);
      assert cs == [c] + rest;
      FlattenCons(c, rest);
      ParsePiece(c, Flatten(rest));
    }
  }

  // ── What a filter does ───────────────────────────────────────────────────

  lemma {:induction false} AwkKeeps(rule: Rule, lines: Lines, block: Option<Chunk>)
    requires block.Some? ==> block.value.Block?
    requires Clean(lines, block.Some?)
    ensures Awk(rule, lines, if block.Some? then Some(ChunkLines(block.value)) else None)
         == Flatten(Keep(rule, Chunks(lines, block)))
    decreases |lines|
  {
    if block.Some? {
      assert ChunkLines(block.value)[1..] == block.value.body;
    }
    if lines != [] {
      var line, rest := lines[0], lines[1..];
      if IsPeer(line) {
        assert ChunkLines(Block(line, [])) == [line];
        AwkKeeps(rule, rest, Some(Block(line, [])));
      } else if block.None? {
        AwkKeeps(rule, rest, None);
      } else {
        var b := block.value.(body := block.value.body + [line]);
        assert ChunkLines(b) == ChunkLines(block.value) + [line];
        assert ChunkLines(b)[1..] == b.body;
        AwkKeeps(rule, rest, if Ends(line) then None else Some(b));
      }
    }
  }

  /** On a conf without a peer header inside an open block, the state machine removes exactly the
    * peer blocks the rule discards and keeps every other piece in order. */
  lemma FilterExact(rule: Rule, lines: Lines)
    requires Clean(lines, false)
    ensures Filter(rule, lines) == Flatten(Keep(rule, Parse(lines)))
  {
    AwkKeeps(rule, lines, None);
  }

  lemma {:induction false} KeepValid(rule: Rule, cs: seq<Chunk>)
    requires ValidChunks(cs)
    ensures ValidChunks(Keep(rule, cs))
    ensures Keep(rule, Keep(rule, cs)) == Keep(rule, cs)
    ensures forall c | c in Keep(rule, cs) :: c in cs && Kept(rule, c)
    ensures forall c | c in cs && Kept(rule, c) :: c in Keep(rule, cs)
    decreases |cs|
  {
    if cs != [] {
      KeepValid(rule, cs[1..]);
      assert cs == [cs[0]] + cs[1..];
    }
  }

  /** Filtering keeps the layout, cuts into exactly the kept pieces, and is idempotent. */
  lemma FilterStable(rule: Rule, lines: Lines)
    requires Clean(lines, false)
    ensures Clean(Filter(rule, lines), false)
    ensures Parse(Filter(rule, lines)) == Keep(rule, Parse(lines))
    ensures Filter(rule, Filter(rule, lines)) == Filter(rule, lines)
  {
    FilterExact(rule, lines);
    ChunksValid(lines, None);
    KeepValid(rule, Parse(lines));
    ParseFlatten(Keep(rule, Parse(lines)));
    FilterExact(rule, Filter(rule, lines));
  }

  lemma {:induction false} AwkShrinks(rule: Rule, lines: Lines, block: Option<Lines>)
    requires block.Some? ==> |block.value| > 0
    ensures |Awk(rule, lines, block)| <= |lines| + (if block.Some? then |block.value| else 0)
    ensures !Clean(lines, block.Some?) ==>
      |Awk(rule, lines, block)| < |lines| + (if block.Some? then |block.value| else 0)
    decreases |lines|
  {
    if lines != [] {
      var line, rest := lines[0], lines[1..];
      if IsPeer(line) {
        AwkShrinks(rule, rest, Some([line]));
      } else if block.None? {
        AwkShrinks(rule, rest, None);
      } else if Ends(line) {
        AwkShrinks(rule, rest, None);
      } else {
        AwkShrinks(rule, rest, Some(block.value + [line]));
      }
    }
  }

  lemma {:induction false} KeepAll(rule: Rule, cs: seq<Chunk>)
    requires forall c | c in cs :: Kept(rule, c)
    ensures Keep(rule, cs) == cs
    decreases |cs|
  {
    if cs != [] {
      KeepAll(rule, cs[1..]);
    }
  }

  /** A filter with nothing to discard leaves the conf alone exactly when no peer header stands
    * inside an open peer block; otherwise the earlier block is lost. */
  lemma UntouchedIff(rule: Rule, lines: Lines)
    requires forall c | c in Parse(lines) :: Kept(rule, c)
    ensures Filter(rule, lines) == lines <==> Clean(lines, false)
  {
    if Clean(lines, false) {
      FilterExact(rule, lines);
      KeepAll(rule, Parse(lines));
      FlattenParse(lines);
    } else {
      AwkShrinks(rule, lines, None);
    }
  }

  // ── The script itself ────────────────────────────────────────────────────

  lemma GrownBlock(body: Lines, line: string, key: string, ip: string)
    ensures HasKey(body + [line], key) == (HasKey(body, key) || MentionsKey(line, key))
    ensures HasIp(body + [line], ip) == (HasIp(body, ip) || MentionsIp(line, ip))
  {
    assert forall l | l in body + [line] :: l in body || l == line;
    assert line in body + [line];
  }

  /** What the awk variables stand for. */
  ghost predicate Tracks(rule: Rule, buf: Lines, hasIp: bool, hasKey: bool) {
    |buf| > 0 && hasKey == HasKey(buf[1..], rule.key) && (rule.StaleIp? ==> hasIp == HasIp(buf[1..], rule.ip))
  }

  predicate Drop(rule: Rule, hasIp: bool, hasKey: bool) {
    if rule.ByKey? then hasKey else hasIp && !hasKey
  }

  lemma TracksGrown(rule: Rule, buf: Lines, hasIp: bool, hasKey: bool, line: string)
    requires Tracks(rule, buf, hasIp, hasKey)
    ensures Tracks(rule, buf + [line], hasIp || (rule.StaleIp? && MentionsIp(line, rule.ip)),
                   hasKey || MentionsKey(line, rule.key))
  {
    assert (buf + [line])[1..] == buf[1..] + [line];
    GrownBlock(buf[1..], line, rule.key, if rule.StaleIp? then rule.ip else "");
  }

  lemma DropIff(rule: Rule, buf: Lines, hasIp: bool, hasKey: bool)
    requires Tracks(rule, buf, hasIp, hasKey)
    ensures Drop(rule, hasIp, hasKey) == Discards(rule, buf[1..])
  {
  }

  /** Adds a line to the open block and updates the two flags. */
  method Buffer(rule: Rule, buf: Lines, hasIp: bool, hasKey: bool, line: string)
    returns (grown: Lines, ip: bool, key: bool)
    requires Tracks(rule, buf, hasIp, hasKey)
    ensures grown == buf + [line] && Tracks(rule, grown, ip, key)
  {
    TracksGrown(rule, buf, hasIp, hasKey, line);
    grown := buf + [line];
    ip := hasIp || (rule.StaleIp? && MentionsIp(line, rule.ip));
    key := hasKey || MentionsKey(line, rule.key);
  }

  /** Prints a finished block unless the rule discards it. */
  method EndBlock(rule: Rule, buf: Lines, hasIp: bool, hasKey: bool, out: Lines) returns (printed: Lines)
    requires Tracks(rule, buf, hasIp, hasKey)
    ensures printed == out + (if Discards(rule, buf[1..]) then [] else buf)
  {
    DropIff(rule, buf, hasIp, hasKey);
    printed := if Drop(rule, hasIp, hasKey) then out else out + buf;
  }

  lemma AwkLine(rule: Rule, line: string, rest: Lines, block: Option<Lines>)
    requires block.Some? ==> |block.value| > 0
    ensures Awk(rule, [line] + rest, block) ==
      if IsPeer(line) then Awk(rule, rest, Some([line]))
      else if block.None? then [line] + Awk(rule, rest, None)
      else if !Ends(line) then Awk(rule, rest, Some(block.value + [line]))
      else (if Discards(rule, (block.value + [line])[1..]) then [] else block.value + [line]) + Awk(rule, rest, None)
  {
    assert ([line] + rest)[1..] == rest;
  }

  lemma Assoc(a: Lines, b: Lines, c: Lines)
    ensures a + (b + c) == (a + b) + c
    ensures a + ([] + c) == a + c
  {
    assert [] + c == c;
  }

  /** The awk program, line by line over its own variables. */
  method RunAwk(rule: Rule, lines: Lines) returns (out: Lines)
    ensures out == Filter(rule, lines)
  {
    out := [];
    var inPeer, hasIp, hasKey := false, false, false;
    var buf: Lines := [];
    var i := 0;
    assert lines[0..] == lines;
    while i < |lines|
      invariant 0 <= i <= |lines|
      invariant inPeer ==> Tracks(rule, buf, hasIp, hasKey)
      invariant out + Awk(rule, lines[i..], if inPeer then Some(buf) else None) == Filter(rule, lines)
    {
      var line := lines[i];
      ghost var rest := lines[i + 1..];
      assert lines[i..] == [line] + rest;
      AwkLine(rule, line, rest, if inPeer then Some(buf) else None);
      if IsPeer(line) {
        inPeer, buf, hasIp, hasKey := true, [line], false, false;
      } else if inPeer {
        buf, hasIp, hasKey := Buffer(rule, buf, hasIp, hasKey, line);
        if IsBlank(line) || IsBracket(line) {
          Assoc(out, if Discards(rule, buf[1..]) then [] else buf, Awk(rule, rest, None));
          out := EndBlock(rule, buf, hasIp, hasKey, out);
          inPeer := false;
        }
      } else {
        Assoc(out, [line], Awk(rule, rest, None));
        out := out + [line];
      }
      i := i + 1;
    }
    if inPeer {
      out := EndBlock(rule, buf, hasIp, hasKey, out);
    }
  }
}
