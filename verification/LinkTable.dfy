/** The configured links: validation, toggle reload, and what they make of dispatch. */
module LinkTable {
  import C = CallModel
  import M = MuxModel
  import opened Text

  /** A parsed [[link]] entry; `peer` is the index its OpenBridge system resolved to. */
  datatype Link = Link(name: string, enabled: bool, crossConnect: bool, tgid: int, peer: int, role: M.Role, lid: int,
                       ip: string)

  predicate SameName(a: Link, b: Link) {
    a.name != "" && a.name == b.name
  }

  predicate SameRoute(a: Link, b: Link) {
    a.peer >= 0 && a.peer == b.peer && a.tgid == b.tgid
  }

  predicate SameInbound(a: Link, b: Link) {
    a.role == M.Inbound && b.role == M.Inbound && a.ip == b.ip && a.lid == b.lid
  }

  /** The three rules a file must meet. */
  ghost predicate Checked(links: seq<Link>) {
    forall i: nat, j: nat :: i < j < |links| ==>
      !SameName(links[i], links[j]) && !SameRoute(links[i], links[j]) && !SameInbound(links[i], links[j])
  }

  // ---------- Validation ----------

  method CountSameNames(links: seq<Link>) returns (n: nat)
    ensures n == 0 <==> forall i: nat, j: nat :: i < j < |links| ==> !SameName(links[i], links[j])
  {
    n := 0;
    for i := 0 to |links|
      invariant n == 0 <==> forall k: nat, j: nat :: k < i && k < j < |links| ==> !SameName(links[k], links[j])
    {
      ghost var before := n;
      for j := i + 1 to |links|
        invariant n >= before
        invariant n == before <==> forall k: nat :: i < k < j ==> !SameName(links[i], links[k])
      {
        if links[i].name != "" && links[i].name == links[j].name {
          n := n + 1;
        }
      }
    }
  }

  method CountSameRoutes(links: seq<Link>) returns (n: nat)
    ensures n == 0 <==> forall i: nat, j: nat :: i < j < |links| ==> !SameRoute(links[i], links[j])
  {
    n := 0;
    for i := 0 to |links|
      invariant n == 0 <==> forall k: nat, j: nat :: k < i && k < j < |links| ==> !SameRoute(links[k], links[j])
    {
      ghost var before := n;
      for j := i + 1 to |links|
        invariant n >= before
        invariant n == before <==> forall k: nat :: i < k < j ==> !SameRoute(links[i], links[k])
      {
        if links[i].peer >= 0 && links[i].peer == links[j].peer && links[i].tgid == links[j].tgid {
          n := n + 1;
        }
      }
    }
  }

  method CountSameInbound(links: seq<Link>) returns (n: nat)
    ensures n == 0 <==> forall i: nat, j: nat :: i < j < |links| ==> !SameInbound(links[i], links[j])
  {
    n := 0;
    for i := 0 to |links|
      invariant n == 0 <==> forall k: nat, j: nat :: k < i && k < j < |links| ==> !SameInbound(links[k], links[j])
    {
      if links[i].role != M.Inbound { continue; }
      ghost var before := n;
      for j := i + 1 to |links|
        invariant n >= before
        invariant n == before <==> forall k: nat :: i < k < j ==> !SameInbound(links[i], links[k])
      {
        if links[j].role != M.Inbound { continue; }
        if links[i].ip == links[j].ip && links[i].lid == links[j].lid {
          n := n + 1;
        }
      }
    }
  }

  /** Errors of the three pairwise loops: none exactly when the file meets the rules. */
  method ValidateLinks(links: seq<Link>) returns (errors: nat)
    ensures errors == 0 <==> Checked(links)
  {
    hide SameName, SameRoute, SameInbound;
    var names := CountSameNames(links);
    var routes := CountSameRoutes(links);
    var inbound := CountSameInbound(links);
    errors := names + routes + inbound;
  }

  // ---------- Dispatch ----------

  function CallLink(l: Link): C.LinkConfig {
    C.LinkConfig(l.peer, l.tgid, l.lid, l.enabled, l.crossConnect)
  }

  function MuxLink(l: Link): M.LinkCfg {
    M.LinkCfg(l.role, l.enabled, l.ip, l.lid)
  }

  function CallLinks(links: seq<Link>): (c: seq<C.LinkConfig>)
    ensures |c| == |links|
  {
    seq(|links|, i requires 0 <= i < |links| => CallLink(links[i]))
  }

  function MuxLinks(links: seq<Link>): (m: seq<M.LinkCfg>)
    ensures |m| == |links|
  {
    seq(|links|, i requires 0 <= i < |links| => MuxLink(links[i]))
  }

  /** Link `i` wants the frames of this peer and talkgroup. */
  predicate Wants(l: Link, peer: nat, dst: nat) {
    l.peer == peer && l.tgid % 0x1_0000_0000 == dst
  }

  lemma {:induction false} RouteIsFirst(links: seq<C.LinkConfig>, peer: nat, dst: nat, i: nat)
    requires i <= |links|
    ensures var r := C.Route(links, peer, dst, i);
            if r < 0 then
              forall j: nat :: i <= j < |links| ==> links[j].peer != peer || links[j].tgid % 0x1_0000_0000 != dst
            else r >= i && links[r].peer == peer && links[r].tgid % 0x1_0000_0000 == dst
    decreases |links| - i
  {
    if i < |links| {
      RouteIsFirst(links, peer, dst, i + 1);
    }
  }

  lemma Int32Cast(a: int, b: int)
    requires IsInt32(a) && IsInt32(b) && a % 0x1_0000_0000 == b % 0x1_0000_0000
    ensures a == b
  {
  }

  /** In a checked table a peer and talkgroup select a link exactly when it wants them,
      wherever it stands: the first match is the only one. */
  lemma RoutingIsUnambiguous(links: seq<Link>, peer: nat, dst: nat, i: nat)
    requires Checked(links) && i < |links| && forall k: nat :: k < |links| ==> IsInt32(links[k].tgid)
    ensures Wants(links[i], peer, dst) <==> C.Route(CallLinks(links), peer, dst, 0) == i
  {
    var r := C.Route(CallLinks(links), peer, dst, 0);
    RouteIsFirst(CallLinks(links), peer, dst, 0);
    if Wants(links[i], peer, dst) {
      assert CallLinks(links)[i].peer == peer && CallLinks(links)[i].tgid == links[i].tgid;
      assert r >= 0;
      assert links[r].peer == peer;
      Int32Cast(links[i].tgid, links[r].tgid);
      if r < i {
        assert SameRoute(links[r], links[i]);
      } else if i < r {
        assert SameRoute(links[i], links[r]);
      }
    }
  }

  lemma {:induction false} MatchIsFirst(links: seq<M.LinkCfg>, ip: string, lid: int, i: nat)
    requires i <= |links|
    ensures var r := M.MatchInbound(links, ip, lid, i);
            r < 0 ==> forall j: nat :: i <= j < |links| ==>
              !(links[j].role == M.Inbound && links[j].enabled && links[j].remoteIp == ip && links[j].lid == lid)
    decreases |links| - i
  {
    if i < |links| {
      MatchIsFirst(links, ip, lid, i + 1);
    }
  }

  predicate Takes(l: Link, ip: string, lid: int) {
    l.role == M.Inbound && l.enabled && l.ip == ip && l.lid == lid
  }

  /** In a checked table an address and LID select an inbound link exactly when it is
      enabled for them: the first match is the only one. */
  lemma InboundIsUnambiguous(links: seq<Link>, ip: string, lid: int, i: nat)
    requires Checked(links) && i < |links|
    ensures Takes(links[i], ip, lid) <==> M.MatchInbound(MuxLinks(links), ip, lid, 0) == i
  {
    var r := M.MatchInbound(MuxLinks(links), ip, lid, 0);
    MatchIsFirst(MuxLinks(links), ip, lid, 0);
    if Takes(links[i], ip, lid) {
      assert MuxLinks(links)[i] == MuxLink(links[i]);
      assert r >= 0 && MuxLinks(links)[r] == MuxLink(links[r]);
      if r < i {
        assert SameInbound(links[r], links[i]);
      } else if i < r {
        assert SameInbound(links[i], links[r]);
      }
    }
  }

  /** The rules forbid nothing that would do no harm: two links break the second one exactly
      if some frame is for both, and the third one exactly if, enabled, both would take the
      Question of some bridge. */
  lemma RulesAreExact(a: Link, b: Link)
    requires IsInt32(a.tgid) && IsInt32(b.tgid)
    ensures SameRoute(a, b) <==> exists peer: nat, dst: nat :: Wants(a, peer, dst) && Wants(b, peer, dst)
    ensures SameInbound(a, b) <==>
            exists ip: string, lid: int :: Takes(a.(enabled := true), ip, lid) && Takes(b.(enabled := true), ip, lid)
  {
    if peer: nat, dst: nat :| Wants(a, peer, dst) && Wants(b, peer, dst) {
      Int32Cast(a.tgid, b.tgid);
    }
    if SameRoute(a, b) {
      assert Wants(a, a.peer, a.tgid % 0x1_0000_0000) && Wants(b, a.peer, a.tgid % 0x1_0000_0000);
    }
    if SameInbound(a, b) {
      assert Takes(a.(enabled := true), a.ip, a.lid) && Takes(b.(enabled := true), a.ip, a.lid);
    }
  }

  // ---------- Reload ----------

  /** A parsed [[openbridge]] entry, as far as a reload can change it. */
  datatype Peer = Peer(name: string, enabled: bool)

  /** A parsed file; `otherErrors` counts what reading it found besides the rules above. */
  datatype File = File(links: seq<Link>, peers: seq<Peer>, otherErrors: nat)

  ghost predicate Valid(file: File) {
    file.otherErrors == 0 && Checked(file.links)
  }

  /** First entry of that name, or -1. */
  function FirstNamed(links: seq<Link>, name: string, j: nat): (r: int)
    requires j <= |links|
    ensures -1 <= r < |links|
    ensures r >= 0 ==> links[r].name == name
    decreases |links| - j
  {
    if j == |links| then -1 else if links[j].name == name then j else FirstNamed(links, name, j + 1)
  }

  function ReloadedLink(l: Link, file: seq<Link>): Link {
    var j := FirstNamed(file, l.name, 0);
    if j < 0 then l else l.(enabled := file[j].enabled, crossConnect := file[j].crossConnect)
  }

  function Reloaded(links: seq<Link>, file: seq<Link>): (r: seq<Link>)
    ensures |r| == |links|
  {
    seq(|links|, i requires 0 <= i < |links| => ReloadedLink(links[i], file))
  }

  function FirstPeer(peers: seq<Peer>, name: string, j: nat): (r: int)
    requires j <= |peers|
    ensures -1 <= r < |peers|
    decreases |peers| - j
  {
    if j == |peers| then -1 else if peers[j].name == name then j else FirstPeer(peers, name, j + 1)
  }

  function ReloadedPeer(p: Peer, file: seq<Peer>): Peer {
    var j := FirstPeer(file, p.name, 0);
    if j < 0 then p else p.(enabled := file[j].enabled)
  }

  function ReloadedPeers(peers: seq<Peer>, file: seq<Peer>): (r: seq<Peer>)
    ensures |r| == |peers|
  {
    seq(|peers|, i requires 0 <= i < |peers| => ReloadedPeer(peers[i], file))
  }

  /** Load the file again; on errors keep everything, else copy the toggles over. */
  method ReloadToggles(links: array<Link>, peers: array<Peer>, file: File) returns (ok: bool)
    modifies links, peers
    ensures ok <==> Valid(file)
    ensures links[..] == if ok then Reloaded(old(links[..]), file.links) else old(links[..])
    ensures peers[..] == if ok then ReloadedPeers(old(peers[..]), file.peers) else old(peers[..])
  {
    hide Checked, ReloadedLink, ReloadedPeer;
    var errors := ValidateLinks(file.links);
    if errors + file.otherErrors > 0 {
      return false;
    }
    ReloadPeers(peers, file.peers);
    ReloadLinks(links, file.links);
    ok := true;
  }

  method ReloadLinks(links: array<Link>, file: seq<Link>)
    modifies links
    ensures links[..] == Reloaded(old(links[..]), file)
  {
    hide ReloadedLink;
    ghost var was := links[..];
    for i := 0 to links.Length
      invariant forall k: nat :: k < links.Length ==> links[k] == if k < i then ReloadedLink(was[k], file) else was[k]
    {
      ReloadOne(links, i, file);
    }
  }

  method ReloadPeers(peers: array<Peer>, file: seq<Peer>)
    modifies peers
    ensures peers[..] == ReloadedPeers(old(peers[..]), file)
  {
    hide ReloadedPeer;
    ghost var was := peers[..];
    for i := 0 to peers.Length
      invariant forall k: nat :: k < peers.Length ==> peers[k] == if k < i then ReloadedPeer(was[k], file) else was[k]
    {
      ReloadPeer(peers, i, file);
    }
  }

  method ReloadPeer(peers: array<Peer>, i: nat, file: seq<Peer>)
    requires i < peers.Length
    modifies peers
    ensures peers[i] == ReloadedPeer(old(peers[i]), file)
    ensures forall k: nat :: k < peers.Length && k != i ==> peers[k] == old(peers[k])
  {
    for j := 0 to |file|
      invariant peers[..] == old(peers[..])
      invariant FirstPeer(file, peers[i].name, 0) == FirstPeer(file, peers[i].name, j)
    {
      if peers[i].name == file[j].name {
        peers[i] := peers[i].(enabled := file[j].enabled);
        return;
      }
    }
  }

  method ReloadOne(links: array<Link>, i: nat, file: seq<Link>)
    requires i < links.Length
    modifies links
    ensures links[i] == ReloadedLink(old(links[i]), file)
    ensures forall k: nat :: k < links.Length && k != i ==> links[k] == old(links[k])
  {
    for j := 0 to |file|
      invariant links[..] == old(links[..])
      invariant FirstNamed(file, links[i].name, 0) == FirstNamed(file, links[i].name, j)
    {
      if links[i].name == file[j].name {
        links[i] := links[i].(enabled := file[j].enabled, crossConnect := file[j].crossConnect);
        return;
      }
    }
  }

  /** The tables after a number of files; one with errors changes nothing. */
  ghost function ReloadedAll(links: seq<Link>, files: seq<File>): (r: seq<Link>)
    ensures |r| == |links|
  {
    if files == [] then links
    else
      var r, file := ReloadedAll(links, files[..|files| - 1]), files[|files| - 1];
      if Valid(file) then Reloaded(r, file.links) else r
  }

  ghost function PeersReloadedAll(peers: seq<Peer>, files: seq<File>): (r: seq<Peer>)
    ensures |r| == |peers|
  {
    if files == [] then peers
    else
      var r, file := PeersReloadedAll(peers, files[..|files| - 1]), files[|files| - 1];
      if Valid(file) then ReloadedPeers(r, file.peers) else r
  }

  function Toggles(peers: seq<Peer>): (t: seq<bool>)
    ensures |t| == |peers|
  {
    seq(|peers|, i requires 0 <= i < |peers| => peers[i].enabled)
  }

  predicate OnlyTogglesDiffer(a: Link, b: Link) {
    b == a.(enabled := b.enabled, crossConnect := b.crossConnect)
  }

  lemma {:induction false} ReloadsChangeOnlyToggles(links: seq<Link>, files: seq<File>, i: nat)
    requires i < |links|
    ensures OnlyTogglesDiffer(links[i], ReloadedAll(links, files)[i])
  {
    if files != [] {
      ReloadsChangeOnlyToggles(links, files[..|files| - 1], i);
    }
  }

  /** Any number of reloads, of files with errors and without, keeps a checked table
      checked, so dispatch stays unambiguous, and is a reload in the translator's and
      the multiplexer's sense. */
  lemma ReloadsKeepDispatch(links: seq<Link>, peers: seq<Peer>, files: seq<File>)
    requires Checked(links)
    ensures Checked(ReloadedAll(links, files))
    ensures C.Reloads(C.Config(CallLinks(links), Toggles(peers)),
                      C.Config(CallLinks(ReloadedAll(links, files)), Toggles(PeersReloadedAll(peers, files))))
    ensures var r := ReloadedAll(links, files);
            MuxLinks(r) == M.Toggled(MuxLinks(links), seq(|r|, i requires 0 <= i < |r| => r[i].enabled))
  {
    hide ReloadedAll;
    var r := ReloadedAll(links, files);
    forall i: nat | i < |links| ensures OnlyTogglesDiffer(links[i], r[i]) {
      ReloadsChangeOnlyToggles(links, files, i);
    }
    forall i: nat, j: nat | i < j < |r|
      ensures !SameName(r[i], r[j]) && !SameRoute(r[i], r[j]) && !SameInbound(r[i], r[j])
    {
      assert OnlyTogglesDiffer(links[i], r[i]) && OnlyTogglesDiffer(links[j], r[j]);
      assert !SameName(links[i], links[j]) && !SameRoute(links[i], links[j]) && !SameInbound(links[i], links[j]);
    }
  }

  // ---------- What a reload brings ----------

  lemma {:induction false} FirstOfName(file: seq<Link>, name: string, j: nat, from: nat)
    requires from <= j <= |file| && forall k: nat :: from <= k < j ==> file[k].name != name
    ensures j < |file| && file[j].name == name ==> FirstNamed(file, name, from) == j
    ensures j == |file| ==> FirstNamed(file, name, from) < 0
    decreases |file| - from
  {
    if from < j {
      FirstOfName(file, name, j, from + 1);
    }
  }

  lemma {:induction false} FirstPeerOfName(file: seq<Peer>, name: string, j: nat, from: nat)
    requires from <= j <= |file| && forall k: nat :: from <= k < j ==> file[k].name != name
    ensures j < |file| && file[j].name == name ==> FirstPeer(file, name, from) == j
    ensures j == |file| ==> FirstPeer(file, name, from) < 0
    decreases |file| - from
  {
    if from < j {
      FirstPeerOfName(file, name, j, from + 1);
    }
  }

  /** Whatever was loaded before, after a valid file a link has the toggles of the one
      entry of its name, in the translator's table and the multiplexer's. */
  lemma ReloadBringsToggles(links: seq<Link>, files: seq<File>, i: nat, j: nat)
    requires files != [] && Valid(files[|files| - 1]) && i < |links| && links[i].name != ""
    requires j < |files[|files| - 1].links| && files[|files| - 1].links[j].name == links[i].name
    ensures var entry, r := files[|files| - 1].links[j], ReloadedAll(links, files);
            && CallLinks(r)[i] == C.LinkConfig(links[i].peer, links[i].tgid, links[i].lid, entry.enabled,
                                               entry.crossConnect)
            && MuxLinks(r)[i] == M.LinkCfg(links[i].role, entry.enabled, links[i].ip, links[i].lid)
  {
    var n := |files| - 1;
    var file := files[n].links;
    ReloadsChangeOnlyToggles(links, files[..n], i);
    forall k: nat | k < j ensures file[k].name != links[i].name {
      assert !SameName(file[k], file[j]);
    }
    FirstOfName(file, links[i].name, j, 0);
  }

  predicate Mentions(file: seq<Link>, name: string) {
    exists k: nat :: k < |file| && file[k].name == name
  }

  /** A link the file does not name keeps its toggles. */
  lemma ReloadLeavesTheRest(links: seq<Link>, files: seq<File>, i: nat)
    requires files != [] && i < |links|
    requires Valid(files[|files| - 1]) ==> !Mentions(files[|files| - 1].links, links[i].name)
    ensures ReloadedAll(links, files)[i] == ReloadedAll(links, files[..|files| - 1])[i]
  {
    var n := |files| - 1;
    ReloadsChangeOnlyToggles(links, files[..n], i);
    if Valid(files[n]) {
      FirstOfName(files[n].links, links[i].name, |files[n].links|, 0);
    }
  }

  /** Entry `j` is the first of that name, or there is none and `j` is past the end. */
  predicate IsFirstPeer(file: seq<Peer>, name: string, j: nat) {
    j <= |file| && (forall k: nat :: k < j ==> file[k].name != name) && (j < |file| ==> file[j].name == name)
  }

  /** A peer takes the toggle of the first entry of its name, and without one keeps its own. */
  lemma ReloadBringsPeers(peers: seq<Peer>, files: seq<File>, i: nat, j: nat)
    requires files != [] && Valid(files[|files| - 1]) && i < |peers|
    requires IsFirstPeer(files[|files| - 1].peers, peers[i].name, j)
    ensures var file := files[|files| - 1].peers;
            Toggles(PeersReloadedAll(peers, files))[i]
            == if j < |file| then file[j].enabled else Toggles(PeersReloadedAll(peers, files[..|files| - 1]))[i]
  {
    var n := |files| - 1;
    PeersKeepNames(peers, files[..n], i);
    FirstPeerOfName(files[n].peers, peers[i].name, j, 0);
  }

  lemma {:induction false} PeersKeepNames(peers: seq<Peer>, files: seq<File>, i: nat)
    requires i < |peers|
    ensures PeersReloadedAll(peers, files)[i].name == peers[i].name
  {
    if files != [] {
      PeersKeepNames(peers, files[..|files| - 1], i);
    }
  }
}
