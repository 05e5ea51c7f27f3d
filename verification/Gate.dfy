/** The JSON-RPC front door of one Orb: what is served while it is locked, and what is not. */
module Gate {
  import opened Wrappers
  import opened Unlock
  import opened UnlockTheorems
  import opened UnlockCalls

  datatype Request =
    | NotAnObject
    | Notification
    | Initialize
    | ToolsList
    | CallUnlock(password: string)
    | CallSearch(arguments: string)
    | CallWebUrl
    | CallUnknown(tool: string)
    | ResourcesList
    | ResourcesRead(uri: string)
    | UnknownMethod(called: string)

  datatype Response =
    | Silent
    | InvalidRequest
    | ServerInfo(name: string, version: string, description: string)
    | OpenTools(orbName: string, methods: seq<string>)
    | LockedTools
    | Unlocked
    | WrongPassword
    | OrbIsLocked
    | SearchAnswer(text: string)
    | WebUrl(url: Option<string>, mode: string, passwordRequired: bool, open: bool)
    | UnknownTool(tool: string)
    | Resources(entries: seq<(string, string)>)
    | Contents(uri: string, text: string)
    | DocumentNotFound
    | InvalidUri
    | MethodNotFound(called: string)

  /** What the handler reads besides the Orb: the search runtime, naming of resources, and the session. */
  datatype Session = Session(
    answer: (Knowledge, string) -> string,
    methods: Knowledge -> seq<string>,
    resource: Document -> (string, string),
    mode: string,
    url: Option<string>)

  /** `knowledge()` panics when the slot is empty. */
  datatype Outcome = Replied(orb: Orb, chain: Keychain, response: Response) | Panicked

  const RESOURCE_PREFIX: string := "orb://documents/"

  predicate IsDigit(c: char) {
    '0' <= c <= '9'
  }

  predicate AllDigits(s: string) {
    forall i :: 0 <= i < |s| ==> IsDigit(s[i])
  }

  function Digits(s: string): nat
    requires AllDigits(s)
  {
    if s == [] then 0
    else
      var last := s[|s| - 1];
      assert IsDigit(last);
      10 * Digits(s[..|s| - 1]) + (last as int - '0' as int)
  }

  /** Parsing a u32: an optional plus sign, at least one digit, no overflow. */
  function ParseU32(s: string): Option<nat> {
    var t := if s != [] && s[0] == '+' then s[1..] else s;
    if t != [] && AllDigits(t) && Digits(t) < 0x1_0000_0000 then Some(Digits(t)) else None
  }

  function DocId(uri: string): Option<nat> {
    if RESOURCE_PREFIX <= uri then ParseU32(uri[|RESOURCE_PREFIX|..]) else None
  }

  function JoinedText(chunks: seq<Chunk>, doc: nat): seq<string> {
    if chunks == [] then []
    else (if chunks[0].documentId == doc then [chunks[0].text] else []) + JoinedText(chunks[1..], doc)
  }

  function Join(texts: seq<string>): string {
    if texts == [] then "" else if |texts| == 1 then texts[0] else texts[0] + "\n\n" + Join(texts[1..])
  }

  function ReadResource(k: Knowledge, uri: string): Response {
    match DocId(uri)
    case None => InvalidUri
    case Some(doc) =>
      if exists i :: 0 <= i < |k.documents| && k.documents[i].id == doc then Contents(uri, Join(JoinedText(k.chunks, doc)))
      else DocumentNotFound
  }

  // ---------------------------------------------------------------- what a resource read returns

  function DigitChar(d: nat): char
    requires d < 10
  {
    '0' + d as char
  }

  /** A number in decimal, as the resource list writes document ids. */
  function Decimal(n: nat): (s: string)
    ensures s != ""
  {
    if n < 10 then [DigitChar(n)] else Decimal(n / 10) + [DigitChar(n % 10)]
  }

  lemma {:induction false} DecimalDigits(n: nat)
    ensures AllDigits(Decimal(n)) && Digits(Decimal(n)) == n
  {
    if n >= 10 {
      DecimalDigits(n / 10);
      assert Decimal(n)[..|Decimal(n)| - 1] == Decimal(n / 10);
    }
  }

  /** A number is read back from its decimal form, with or without a plus sign, as long as it has 32 bits. */
  lemma DecimalParses(n: nat)
    ensures ParseU32(Decimal(n)) == ParseU32("+" + Decimal(n)) == if n < 4294967296 then Some(n) else None
  {
    DecimalDigits(n);
    assert IsDigit(Decimal(n)[0]);
    assert ("+" + Decimal(n))[1..] == Decimal(n);
  }

  /** Nothing else is: what parses is digits behind an optional plus sign. */
  lemma ParsedIsDigits(s: string)
    requires ParseU32(s).Some?
    ensures exists t: string :: (s == t || s == "+" + t) && t != "" && AllDigits(t)
  {
    if s[0] == '+' {
      assert s == "+" + s[1..];
    }
  }

  /** Reading a listed document returns the texts of exactly its chunks, in order; an id nobody has is not found. */
  lemma ReadsDocument(k: Knowledge, doc: nat)
    ensures var uri := "orb://documents/" + Decimal(doc);
            ReadResource(k, uri) == if doc >= 4294967296 then InvalidUri
                                    else if exists i :: 0 <= i < |k.documents| && k.documents[i].id == doc
                                    then Contents(uri, Join(JoinedText(k.chunks, doc))) else DocumentNotFound
  {
    var uri := RESOURCE_PREFIX + Decimal(doc);
    DecimalParses(doc);
    assert uri[|RESOURCE_PREFIX|..] == Decimal(doc);
  }

  /** Any other address is none. */
  lemma OtherUrisAreInvalid(k: Knowledge, uri: string)
    requires !("orb://documents/" <= uri)
    ensures ReadResource(k, uri) == InvalidUri
  {}

  /** The texts of a document, chunk list by chunk list. */
  lemma {:induction false} JoinedTextConcat(xs: seq<Chunk>, ys: seq<Chunk>, doc: nat)
    ensures JoinedText(xs + ys, doc) == JoinedText(xs, doc) + JoinedText(ys, doc)
  {
    if xs == [] {
      assert xs + ys == ys;
    } else {
      ConcatTail(xs, ys);
      JoinedTextConcat(xs[1..], ys, doc);
      var head := if xs[0].documentId == doc then [xs[0].text] else [];
      assert head + (JoinedText(xs[1..], doc) + JoinedText(ys, doc)) == (head + JoinedText(xs[1..], doc)) + JoinedText(ys, doc);
    }
  }

  lemma ConcatTail(xs: seq<Chunk>, ys: seq<Chunk>)
    requires xs != []
    ensures (xs + ys)[0] == xs[0] && (xs + ys)[1..] == xs[1..] + ys
  {}

  /** A chunk of the document contributes its text. */
  lemma OwnChunkAddsItsText(c: Chunk)
    ensures JoinedText([c], c.documentId) == [c.text]
  {
    assert [c][1..] == [];
  }

  /** The texts of a document are those at these positions, in ascending order. */
  predicate AreTextsAt(texts: seq<string>, chunks: seq<Chunk>, doc: nat, at: seq<nat>) {
    && |at| == |texts|
    && (forall i :: 0 <= i < |at| ==> at[i] < |chunks| && chunks[at[i]].documentId == doc && chunks[at[i]].text == texts[i])
    && (forall i, j :: 0 <= i < j < |at| ==> at[i] < at[j])
    && (forall n :: 0 <= n < |chunks| && chunks[n].documentId == doc ==> n in at)
  }

  /** Every chunk of the document contributes its text, in the order of the chunks, and no other chunk does. */
  lemma {:induction false} TextsInOrder(chunks: seq<Chunk>, doc: nat) returns (at: seq<nat>)
    ensures AreTextsAt(JoinedText(chunks, doc), chunks, doc, at)
  {
    if chunks == [] {
      return [];
    }
    var n := |chunks| - 1;
    var init, last := chunks[..n], chunks[n];
    at := TextsInOrder(init, doc);
    assert chunks == init + [last];
    JoinedTextConcat(init, [last], doc);
    if last.documentId == doc {
      OwnChunkAddsItsText(last);
      at := at + [n];
    } else {
      OtherChunksAddNothing([last], doc);
    }
  }

  /** A blank line stands between two texts, and nothing around them. */
  lemma JoinOne(t: string)
    ensures Join([t]) == t && Join([]) == ""
  {}

  lemma {:induction false} JoinConcat(xs: seq<string>, ys: seq<string>)
    requires xs != [] && ys != []
    ensures Join(xs + ys) == Join(xs) + ("\n\n" + Join(ys))
  {
    if |xs| == 1 {
      assert xs + ys == [xs[0]] + ys && (xs + ys)[1..] == ys;
    } else {
      assert (xs + ys)[1..] == xs[1..] + ys && (xs + ys)[0] == xs[0];
      JoinConcat(xs[1..], ys);
      assert Join(xs + ys) == xs[0] + "\n\n" + (Join(xs[1..]) + ("\n\n" + Join(ys)));
    }
  }

  /** Chunks of other documents add nothing. */
  lemma {:induction false} OtherChunksAddNothing(xs: seq<Chunk>, doc: nat)
    requires forall i :: 0 <= i < |xs| ==> xs[i].documentId != doc
    ensures JoinedText(xs, doc) == []
  {
    if xs != [] {
      OtherChunksAddNothing(xs[1..], doc);
    }
  }

  /** The requests that read the knowledge once they have found the Orb open. */
  predicate ReadsKnowledge(r: Request) {
    r.ToolsList? || r.CallSearch? || r.ResourcesList? || r.ResourcesRead?
  }

  function UseKnowledge(env: Session, k: Knowledge, r: Request): Response
    requires ReadsKnowledge(r)
  {
    match r
    case ToolsList => OpenTools(k.manifest.name, env.methods(k))
    case CallSearch(arguments) => SearchAnswer(env.answer(k, arguments))
    case ResourcesList => Resources(seq(|k.documents|, i requires 0 <= i < |k.documents| => env.resource(k.documents[i])))
    case ResourcesRead(uri) => ReadResource(k, uri)
  }

  function WithKnowledge(env: Session, orb: Orb, chain: Keychain, r: Request): Outcome
    requires ReadsKnowledge(r)
  {
    if orb.knowledge.None? then Panicked else Replied(orb, chain, UseKnowledge(env, orb.knowledge.value, r))
  }

  function Handle(p: Primitives, env: Session, orb: Orb, chain: Keychain, request: Request, available: bool): Outcome {
    match request
    case NotAnObject => Replied(orb, chain, InvalidRequest)
    case Notification => Replied(orb, chain, Silent)
    case Initialize =>
      Replied(orb, chain, match orb.knowledge
                          case Some(k) => ServerInfo(k.manifest.name, k.manifest.version, k.manifest.description)
                          case None => ServerInfo("MCPOrb Runner", "", ""))
    case ToolsList =>
      if IsUnlocked(orb) then WithKnowledge(env, orb, chain, request)
      else Replied(orb, chain, LockedTools)
    case CallUnlock(password) =>
      if IsUnlocked(orb) then Replied(orb, chain, Unlocked)
      else
        var (orb', chain', error) := PerformUnlock(p, orb, chain, password, available);
        Replied(orb', chain', if error.None? then Unlocked else WrongPassword)
    case CallSearch(_) =>
      var (orb', chain') := if IsUnlocked(orb) then (orb, chain) else TryAutoUnlock(p, orb, chain, available);
      if IsUnlocked(orb') then WithKnowledge(env, orb', chain', request)
      else Replied(orb', chain', OrbIsLocked)
    case CallWebUrl => Replied(orb, chain, WebUrl(env.url, env.mode, orb.config.password.Some?, IsUnlocked(orb)))
    case CallUnknown(tool) => Replied(orb, chain, UnknownTool(tool))
    case ResourcesList =>
      if !IsUnlocked(orb) then Replied(orb, chain, OrbIsLocked)
      else WithKnowledge(env, orb, chain, request)
    case ResourcesRead(_) =>
      if !IsUnlocked(orb) then Replied(orb, chain, OrbIsLocked)
      else WithKnowledge(env, orb, chain, request)
    case UnknownMethod(m) => Replied(orb, chain, MethodNotFound(m))
  }

  /** A request, and whether the keychain answers while it is handled. */
  type Exchange = (Request, bool)

  datatype Dialogue = Dialogue(orb: Orb, chain: Keychain, responses: seq<Response>)

  /** A session of requests in order; None if one of them panics. */
  function Serve(p: Primitives, env: Session, orb: Orb, chain: Keychain, exchanges: seq<Exchange>): Option<Dialogue>
    decreases |exchanges|
  {
    if exchanges == [] then Some(Dialogue(orb, chain, []))
    else
      var o := Handle(p, env, orb, chain, exchanges[0].0, exchanges[0].1);
      if o.Panicked? then None
      else
        var rest := Serve(p, env, o.orb, o.chain, exchanges[1..]);
        if rest.None? then None else Some(rest.value.(responses := [o.response] + rest.value.responses))
  }

  /** A session is answered one request after the other: each from what the ones before it have left. */
  lemma {:induction false} ServeConcat(p: Primitives, env: Session, orb: Orb, chain: Keychain, xs: seq<Exchange>, ys: seq<Exchange>)
    ensures var d := Serve(p, env, orb, chain, xs);
            var e := if d.None? then None else Serve(p, env, d.value.orb, d.value.chain, ys);
            Serve(p, env, orb, chain, xs + ys) ==
            if e.None? then None else Some(Dialogue(e.value.orb, e.value.chain, d.value.responses + e.value.responses))
    decreases |xs|
  {
    if xs == [] {
      assert xs + ys == ys;
      var e := Serve(p, env, orb, chain, ys);
      assert e.Some? ==> [] + e.value.responses == e.value.responses;
    } else {
      assert (xs + ys)[1..] == xs[1..] + ys && (xs + ys)[0] == xs[0];
      var o := Handle(p, env, orb, chain, xs[0].0, xs[0].1);
      if o.Replied? {
        ServeConcat(p, env, o.orb, o.chain, xs[1..], ys);
        var d := Serve(p, env, o.orb, o.chain, xs[1..]);
        var e := if d.None? then None else Serve(p, env, d.value.orb, d.value.chain, ys);
        assert e.Some? ==> [o.response] + (d.value.responses + e.value.responses) == [o.response] + d.value.responses + e.value.responses;
      }
    }
  }

  lemma ServeOne(p: Primitives, env: Session, orb: Orb, chain: Keychain, exchange: Exchange)
    ensures var o := Handle(p, env, orb, chain, exchange.0, exchange.1);
            Serve(p, env, orb, chain, [exchange]) == if o.Panicked? then None else Some(Dialogue(o.orb, o.chain, [o.response]))
  {
    var o := Handle(p, env, orb, chain, exchange.0, exchange.1);
    assert [exchange][1..] == [];
    assert o.Replied? ==> [o.response] + [] == [o.response];
  }

  /** What an open Orb answers from its knowledge, and that asking changes nothing. */
  lemma OpenReplies(p: Primitives, env: Session, orb: Orb, chain: Keychain, k: Knowledge, query: string, uri: string, available: bool)
    requires IsUnlocked(orb) && orb.knowledge == Some(k)
    ensures Handle(p, env, orb, chain, ToolsList, available) == Replied(orb, chain, OpenTools(k.manifest.name, env.methods(k)))
    ensures Handle(p, env, orb, chain, CallSearch(query), available) == Replied(orb, chain, SearchAnswer(env.answer(k, query)))
    ensures Handle(p, env, orb, chain, ResourcesRead(uri), available) == Replied(orb, chain, ReadResource(k, uri))
    ensures var o := Handle(p, env, orb, chain, ResourcesList, available);
            && o.Replied? && o.response.Resources? && |o.response.entries| == |k.documents|
            && forall i :: 0 <= i < |k.documents| ==> o.response.entries[i] == env.resource(k.documents[i])
  {}

  /** What a locked one answers: it lists the unlocking tools only, refuses what reads the knowledge, and tells a search
      from its answer only if the keychain opens it first. */
  lemma LockedReplies(p: Primitives, env: Session, orb: Orb, chain: Keychain, request: Request, available: bool)
    requires !IsUnlocked(orb)
    ensures var o := Handle(p, env, orb, chain, request, available);
            && (request.ToolsList? ==> o == Replied(orb, chain, LockedTools))
            && (request.ResourcesList? || request.ResourcesRead? ==> o == Replied(orb, chain, OrbIsLocked))
            && (request.CallSearch? && !IsUnlocked(TryAutoUnlock(p, orb, chain, available).0) ==> o.Replied? && o.response == OrbIsLocked)
            && (request.CallUnlock? ==> o.Replied? && (o.response == Unlocked <==> IsUnlocked(o.orb)) && (o.response == WrongPassword <==> !IsUnlocked(o.orb)))
  {}

  // ---------------------------------------------------------------- the gate is total

  /** The part of the run invariant that the gate needs: an open Orb has its knowledge. */
  predicate OrbSound(config: SecurityConfig, assets: LoadedAssets, orb: Orb) {
    && orb.config == config
    && (assets.Plain? ==> orb.knowledge.Some?)
    && (assets.Encrypted? ==> config.assetEncryption.Some? && config.password.Some? && (orb.unlocked ==> orb.knowledge.Some?))
  }

  lemma HandleTotal(p: Primitives, env: Session, config: SecurityConfig, assets: LoadedAssets, orb: Orb, chain: Keychain, request: Request, available: bool)
    requires OrbSound(config, assets, orb)
    ensures var o := Handle(p, env, orb, chain, request, available); o.Replied? && OrbSound(config, assets, o.orb)
  {}

  lemma {:induction false} ServeTotal(p: Primitives, env: Session, config: SecurityConfig, assets: LoadedAssets, orb: Orb, chain: Keychain, exchanges: seq<Exchange>)
    requires OrbSound(config, assets, orb)
    ensures Serve(p, env, orb, chain, exchanges).Some?
    decreases |exchanges|
  {
    if exchanges != [] {
      HandleTotal(p, env, config, assets, orb, chain, exchanges[0].0, exchanges[0].1);
      var o := Handle(p, env, orb, chain, exchanges[0].0, exchanges[0].1);
      ServeTotal(p, env, config, assets, o.orb, o.chain, exchanges[1..]);
    }
  }

  ghost predicate NeverPanics(p: Primitives, env: Session, config: SecurityConfig, assets: LoadedAssets) {
    forall chain, exchanges :: Serve(p, env, NewOrb(config, assets), chain, exchanges).Some?
  }

  /** No sequence of requests reaches the panicking accessor, exactly when encrypted assets come with a password. */
  lemma NeverPanicsIff(p: Primitives, env: Session, config: SecurityConfig, assets: LoadedAssets)
    requires FromLoader(config, assets)
    ensures NeverPanics(p, env, config, assets) <==> WellFormed(config, assets)
  {
    if WellFormed(config, assets) {
      forall chain, exchanges ensures Serve(p, env, NewOrb(config, assets), chain, exchanges).Some? {
        ServeTotal(p, env, config, assets, NewOrb(config, assets), chain, exchanges);
      }
    } else {
      var first: Exchange := (ToolsList, true);
      assert Handle(p, env, NewOrb(config, assets), map[], first.0, first.1) == Panicked;
      assert Serve(p, env, NewOrb(config, assets), map[], [first]) == None;
    }
  }

  // ---------------------------------------------------------------- the gate does not leak

  /** Two Orbs that differ at most in documents, chunks and search indexes. */
  predicate SameButContents(a: Orb, b: Orb) {
    && a == b.(knowledge := a.knowledge)
    && (a.knowledge.None? <==> b.knowledge.None?)
    && (a.knowledge.Some? ==> a.knowledge.value.manifest == b.knowledge.value.manifest)
  }

  lemma PerformIsBlind(p: Primitives, a: Orb, b: Orb, chain: Keychain, password: string, available: bool)
    requires SameButContents(a, b) && !IsUnlocked(a)
    ensures var ra := PerformUnlock(p, a, chain, password, available);
            var rb := PerformUnlock(p, b, chain, password, available);
            !IsUnlocked(ra.0) ==> SameButContents(ra.0, rb.0) && ra.1 == rb.1 && ra.2 == rb.2 && ra.2.Some?
  {}

  lemma AutoIsBlind(p: Primitives, a: Orb, b: Orb, chain: Keychain, available: bool)
    requires SameButContents(a, b) && !IsUnlocked(a)
    ensures var ra := TryAutoUnlock(p, a, chain, available);
            var rb := TryAutoUnlock(p, b, chain, available);
            !IsUnlocked(ra.0) ==> SameButContents(ra.0, rb.0) && ra.1 == rb.1
  {}

  /** A request that leaves the Orb locked gets the same reply, and has the same effect, whatever the contents. */
  lemma LockedReplyIsBlind(p: Primitives, env: Session, a: Orb, b: Orb, chain: Keychain, request: Request, available: bool)
    requires SameButContents(a, b)
    requires var o := Handle(p, env, a, chain, request, available); o.Replied? && !IsUnlocked(o.orb)
    ensures var o := Handle(p, env, a, chain, request, available);
            var q := Handle(p, env, b, chain, request, available);
            q.Replied? && q.response == o.response && q.chain == o.chain && SameButContents(o.orb, q.orb)
  {
    match request
    case CallUnlock(password) => if !IsUnlocked(a) { PerformIsBlind(p, a, b, chain, password, available); }
    case CallSearch(_) => if !IsUnlocked(a) { AutoIsBlind(p, a, b, chain, available); }
    case _ =>
  }

  lemma {:induction false} LockIsSticky(p: Primitives, env: Session, orb: Orb, chain: Keychain, exchanges: seq<Exchange>)
    requires Serve(p, env, orb, chain, exchanges).Some? && IsUnlocked(orb)
    ensures IsUnlocked(Serve(p, env, orb, chain, exchanges).value.orb)
    decreases |exchanges|
  {
    if exchanges != [] {
      var o := Handle(p, env, orb, chain, exchanges[0].0, exchanges[0].1);
      LockIsSticky(p, env, o.orb, o.chain, exchanges[1..]);
    }
  }

  /** As long as an Orb stays locked, a whole session tells nothing about its documents, chunks and indexes. */
  lemma {:induction false} LockedSessionIsBlind(p: Primitives, env: Session, a: Orb, b: Orb, chain: Keychain, exchanges: seq<Exchange>)
    requires SameButContents(a, b)
    requires Serve(p, env, a, chain, exchanges).Some? && !IsUnlocked(Serve(p, env, a, chain, exchanges).value.orb)
    ensures var d := Serve(p, env, b, chain, exchanges);
            d.Some? && d.value.responses == Serve(p, env, a, chain, exchanges).value.responses && !IsUnlocked(d.value.orb)
    decreases |exchanges|
  {
    if exchanges != [] {
      var o := Handle(p, env, a, chain, exchanges[0].0, exchanges[0].1);
      if IsUnlocked(o.orb) {
        LockIsSticky(p, env, o.orb, o.chain, exchanges[1..]);
      }
      LockedReplyIsBlind(p, env, a, b, chain, exchanges[0].0, exchanges[0].1);
      var q := Handle(p, env, b, chain, exchanges[0].0, exchanges[0].1);
      LockedSessionIsBlind(p, env, o.orb, q.orb, o.chain, exchanges[1..]);
    }
  }

  // ---------------------------------------------------------------- what is sealed does not show

  /** Two locked Orbs with one config and different ciphertexts, whatever is sealed in them. */
  predicate SealedAlike(a: Orb, b: Orb) {
    a.config == b.config && a.knowledge == b.knowledge == None && a.blob.Some? && b.blob.Some? && !IsUnlocked(a) && !IsUnlocked(b)
      && a.config.assetEncryption.Some?
  }

  /** A request that opens neither of them is answered alike and leaves them alike. */
  lemma SealedReplyIsBlind(p: Primitives, env: Session, a: Orb, b: Orb, chain: Keychain, request: Request, available: bool)
    requires SealedAlike(a, b)
    requires var o := Handle(p, env, a, chain, request, available); o.Replied? && !IsUnlocked(o.orb)
    requires var q := Handle(p, env, b, chain, request, available); q.Replied? && !IsUnlocked(q.orb)
    ensures var o, q := Handle(p, env, a, chain, request, available), Handle(p, env, b, chain, request, available);
            o.response == q.response && o.chain == q.chain && SealedAlike(o.orb, q.orb)
  {
    match request
    case CallUnlock(password) => SealedPerformIsBlind(p, a, b, chain, password, available);
    case CallSearch(_) => SealedAutoIsBlind(p, a, b, chain, available);
    case _ =>
  }

  lemma SealedPerformIsBlind(p: Primitives, a: Orb, b: Orb, chain: Keychain, password: string, available: bool)
    requires SealedAlike(a, b)
    requires !IsUnlocked(PerformUnlock(p, a, chain, password, available).0) && !IsUnlocked(PerformUnlock(p, b, chain, password, available).0)
    ensures var ra, rb := PerformUnlock(p, a, chain, password, available), PerformUnlock(p, b, chain, password, available);
            SealedAlike(ra.0, rb.0) && ra.1 == rb.1 && ra.2.Some? && rb.2.Some?
  {}

  lemma SealedAutoIsBlind(p: Primitives, a: Orb, b: Orb, chain: Keychain, available: bool)
    requires SealedAlike(a, b)
    requires !IsUnlocked(TryAutoUnlock(p, a, chain, available).0) && !IsUnlocked(TryAutoUnlock(p, b, chain, available).0)
    ensures var ra, rb := TryAutoUnlock(p, a, chain, available), TryAutoUnlock(p, b, chain, available);
            SealedAlike(ra.0, rb.0) && ra.1 == rb.1
  {}

  /** A session that opens neither of two packages gets the same answers from both. */
  lemma {:induction false} SealedSessionIsBlind(p: Primitives, env: Session, a: Orb, b: Orb, chain: Keychain, exchanges: seq<Exchange>)
    requires SealedAlike(a, b)
    requires var d := Serve(p, env, a, chain, exchanges); d.Some? && !IsUnlocked(d.value.orb)
    requires var d := Serve(p, env, b, chain, exchanges); d.Some? && !IsUnlocked(d.value.orb)
    ensures Serve(p, env, a, chain, exchanges).value.responses == Serve(p, env, b, chain, exchanges).value.responses
    decreases |exchanges|
  {
    if exchanges != [] {
      var o := Handle(p, env, a, chain, exchanges[0].0, exchanges[0].1);
      var q := Handle(p, env, b, chain, exchanges[0].0, exchanges[0].1);
      if IsUnlocked(o.orb) {
        LockIsSticky(p, env, o.orb, o.chain, exchanges[1..]);
      }
      if IsUnlocked(q.orb) {
        LockIsSticky(p, env, q.orb, q.chain, exchanges[1..]);
      }
      SealedReplyIsBlind(p, env, a, b, chain, exchanges[0].0, exchanges[0].1);
      SealedSessionIsBlind(p, env, o.orb, q.orb, o.chain, exchanges[1..]);
    }
  }
}
