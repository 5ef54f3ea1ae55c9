/** How a registered instance is named: the service ID derived from the
    service name and the bound port, and the health-check ID derived from it. */
module Identifiers {
  import opened Results
  import opened GoStrings
  import opened GoStrconv

  /** `fmt.Sprintf("%s-%d", strings.ReplaceAll(name, ".", "-"), port)`. */
  function ServiceID(name: string, port: int): (id: string)
    ensures '.' !in id
    ensures |id| > |name| + 1 && id[|name|] == '-'
    ensures id[..|name|] == ReplaceChar(name, '.', '-')
    ensures id[|name| + 1..] == Itoa(port)
  {
    var d := ReplaceChar(name, '.', '-');
    var id := d + "-" + Itoa(port);
    assert id[|name| + 1..] == Itoa(port);
    assert id[..|name|] == d;
    assert forall i :: |name| < i < |id| ==> id[i] == Itoa(port)[i - |name| - 1];
    id
  }

  /** Every character of the name keeps its place in the service ID, a dot
      turned into a dash. */
  lemma ServiceIDKeepsName(name: string, port: int)
    ensures var id := ServiceID(name, port);
      forall i :: 0 <= i < |name| ==> id[i] == (if name[i] == '.' then '-' else name[i])
  {
    var id := ServiceID(name, port);
    forall i | 0 <= i < |name|
      ensures id[i] == (if name[i] == '.' then '-' else name[i])
    {
      assert id[i] == id[..|name|][i];
    }
  }

  /** The suffix that turns a service ID into its health-check ID. */
  const HealthSuffix: string := "_health"

  /** `serviceID + "_health"`. */
  function CheckID(serviceID: string): (c: string)
    ensures |c| == |serviceID| + |HealthSuffix|
    ensures c[..|serviceID|] == serviceID && c[|serviceID|..] == HealthSuffix
  {
    serviceID + HealthSuffix
  }

  /** The port read back from the text after the last `-` of a service ID. */
  function PortOfServiceID(id: string): Option<int> {
    match LastIndexOf(id, '-')
    case None => None
    case Some(k) =>
      match Atoi(id[k + 1..])
      case Success(p) => Some(p)
      case Failure(_) => None
  }

  /** The port can be recovered from the service ID, whatever the name, for
      every non-negative port a listener can report. */
  lemma ServiceIDKeepsPort(name: string, port: int)
    requires 0 <= port <= MaxInt64
    ensures PortOfServiceID(ServiceID(name, port)) == Some(port)
  {
    var id := ServiceID(name, port);
    var n := |name|;
    assert '-' !in id[n + 1..];
    assert LastIndexOf(id, '-') == Some(n);
    AtoiItoa(port);
  }

  /** For one port, two names get the same service ID exactly when they
      agree once their dots are made dashes. */
  lemma SameIDSameDashedName(a: string, b: string, port: int)
    ensures ServiceID(a, port) == ServiceID(b, port) <==>
      ReplaceChar(a, '.', '-') == ReplaceChar(b, '.', '-')
  {
    var ida, idb := ServiceID(a, port), ServiceID(b, port);
    if ida == idb {
      assert |ida| == |a| + 1 + |Itoa(port)|;
      assert |idb| == |b| + 1 + |Itoa(port)|;
    }
    if ReplaceChar(a, '.', '-') == ReplaceChar(b, '.', '-') {
      assert ida == ReplaceChar(a, '.', '-') + "-" + Itoa(port) by {
        assert ida == ida[..|a|] + ida[|a|..];
        assert ida[|a|..] == "-" + Itoa(port);
      }
      assert idb == ReplaceChar(b, '.', '-') + "-" + Itoa(port) by {
        assert idb == idb[..|b|] + idb[|b|..];
        assert idb[|b|..] == "-" + Itoa(port);
      }
    }
  }

  /** Dotted and dashed spellings of a name collide: the service ID alone does
      not determine the name. */
  lemma DotsAndDashesCollide(port: int)
    ensures ServiceID("a.b", port) == ServiceID("a-b", port)
  {
    assert ReplaceChar("a.b", '.', '-') == ReplaceChar("a-b", '.', '-');
    SameIDSameDashedName("a.b", "a-b", port);
  }
}
