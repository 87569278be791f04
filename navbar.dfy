/** The display helpers of the navigation bar: the shortened account address,
    the network label and the highlighting of the current page's link. */
module Navbar {
  import opened Common

  /** `formatAddress`: the first six characters, an ellipsis, the last four.
      Either part is the whole address when it is shorter than that part. */
  function FormatAddress(address: string): (r: string)
    ensures r == address[..Min(6, |address|)] + "..." + address[Max(|address| - 4, 0)..]
  {
    Slice(address, 0, 6) + "..." + SliceFrom(address, -4)
  }

  /** An address of at least ten characters (a 42-character account among them)
      is shown in thirteen: its first six, "...", its last four. */
  lemma FormattedAddressShape(address: string)
    requires |address| >= 10
    ensures var r := FormatAddress(address);
            && |r| == 13
            && r[..6] == address[..6]
            && r[6..9] == "..."
            && r[9..] == address[|address| - 4..]
  {
  }

  /** An address of four characters or fewer appears whole on both sides of the ellipsis. */
  lemma ShortAddressRepeated(address: string)
    requires |address| <= 4
    ensures FormatAddress(address) == address + "..." + address
  {
    assert address[..|address|] == address;
    assert address[0..] == address;
  }

  const LocalhostChainId: int := 31337
  const SepoliaChainId: int := 11155111

  /** `getNetworkName`: nothing for a missing or zero chain id, the name of
      the two known chains, otherwise "Chain " and the id in decimal. */
  function GetNetworkName(chainId: Option<int>): (r: string)
    ensures chainId.None? || chainId == Some(0) ==> r == ""
    ensures chainId == Some(LocalhostChainId) ==> r == "Localhost"
    ensures chainId == Some(SepoliaChainId) ==> r == "Sepolia"
    ensures chainId.Some? && chainId.value !in {0, LocalhostChainId, SepoliaChainId} ==>
              |r| > 6 && r[..6] == "Chain " && r[6..] == IntToDecimal(chainId.value)
  {
    match chainId
    case None => ""
    case Some(n) =>
      if n == 0 then ""
      else if n == LocalhostChainId then "Localhost"
      else if n == SepoliaChainId then "Sepolia"
      else "Chain " + IntToDecimal(n)
  }

  /** The label of an unknown chain gives its id back, so two different
      unknown chains never share a label. */
  lemma UnknownChainLabelNamesTheChain(n: int)
    requires n !in {0, LocalhostChainId, SepoliaChainId}
    ensures ParseDecimal(GetNetworkName(Some(n))[6..]) == Some(n)
  {
    IntToDecimalRoundTrip(n);
  }

  /** The labels of different chains differ, except that every falsy chain id shows nothing. */
  lemma NetworkNamesDistinct(m: int, n: int)
    requires m != n && m != 0 && n != 0
    ensures GetNetworkName(Some(m)) != GetNetworkName(Some(n))
  {
    var a, b := GetNetworkName(Some(m)), GetNetworkName(Some(n));
    if a == b {
      if m !in {LocalhostChainId, SepoliaChainId} && n !in {LocalhostChainId, SepoliaChainId} {
        UnknownChainLabelNamesTheChain(m);
        UnknownChainLabelNamesTheChain(n);
      }
    }
  }

  /** `isActive`: a link is highlighted when the current path is exactly its target. */
  predicate IsActive(pathname: string, path: string) {
    pathname == path
  }

  /** The targets of the navigation links, in the order they are shown. */
  const NavLinks: seq<string> := ["/", "/create", "/my-answers", "/statistics"]

  /** The indices of the highlighted links. */
  function ActiveLinks(pathname: string, links: seq<string>): (r: seq<nat>)
    ensures forall k :: 0 <= k < |r| ==> r[k] < |links| && IsActive(pathname, links[r[k]])
    ensures forall j :: 0 <= j < |links| && IsActive(pathname, links[j]) ==> j in r
    ensures forall j, k :: 0 <= j < k < |r| ==> r[j] < r[k]
    decreases |links|
  {
    if |links| == 0 then []
    else
      var n := |links| - 1;
      ActiveLinks(pathname, links[..n]) + (if IsActive(pathname, links[n]) then [n] else [])
  }

  predicate DistinctTargets(links: seq<string>) {
    forall j, k :: 0 <= j < k < |links| ==> links[j] != links[k]
  }

  /** With distinct link targets, one link is highlighted when the current
      path is a link target and none otherwise; so a sub-page such as
      "/statistics/3" highlights none. */
  lemma {:induction false} AtMostOneActiveLink(pathname: string, links: seq<string>)
    requires DistinctTargets(links)
    ensures |ActiveLinks(pathname, links)| == if pathname in links then 1 else 0
    decreases |links|
  {
    if |links| > 0 {
      var n := |links| - 1;
      var prefix := links[..n];
      assert links == prefix + [links[n]];
      AtMostOneActiveLink(pathname, prefix);
      if links[n] == pathname {
        forall j | 0 <= j < n
          ensures prefix[j] != pathname
        {
        }
      }
    }
  }

  /** The navigation bar's own links have distinct targets. */
  lemma NavLinksDistinct()
    ensures DistinctTargets(NavLinks)
  {
  }
}
