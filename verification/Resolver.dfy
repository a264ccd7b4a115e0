/** Which BMCs a secret belongs to, and the region, hostname and credentials used in their paths. */
module Resolver {
  import opened Wrappers
  import opened Sequences
  import opened PathBuilder
  import opened MultiEngine

  datatype BMC = BMC(
    name: string, labels: Labels, secretRef: string, hostname: Option<string>, endpointRef: Option<string>)

  datatype Creds = Creds(username: string, password: string)

  /** The BMCs that reference the secret, in list order. */
  function BMCsOf(bmcs: seq<BMC>, secretName: string): seq<BMC> {
    Filter((b: BMC) => b.secretRef == secretName, bmcs)
  }

  method FindBMCsForSecret(list: Result<seq<BMC>>, secretName: string) returns (r: Result<seq<BMC>>)
    ensures r == if list.Ok? then Ok(BMCsOf(list.value, secretName)) else list
  {
    if list.Err? {
      return list;
    }
    var matching := [];
    for i := 0 to |list.value|
      invariant matching == BMCsOf(list.value[..i], secretName)
    {
      assert list.value[..i + 1][..i] == list.value[..i];
      if list.value[i].secretRef == secretName {
        matching := matching + [list.value[i]];
      }
    }
    assert list.value[..|list.value|] == list.value;
    return Ok(matching);
  }

  function RegionOf(bmc: BMC, regionLabelKey: string): string {
    if bmc.labels.None? then "unknown"
    else if regionLabelKey !in bmc.labels.value || bmc.labels.value[regionLabelKey] == "" then "unknown"
    else bmc.labels.value[regionLabelKey]
  }

  function HostnameOf(bmc: BMC): string {
    if bmc.hostname.Some? && bmc.hostname.value != "" then bmc.hostname.value
    else if bmc.endpointRef.Some? && bmc.endpointRef.value != "" then bmc.endpointRef.value
    else bmc.name
  }

  function VariablesOf(bmc: BMC, regionLabelKey: string, username: string): PathVariables {
    PathVariables(RegionOf(bmc, regionLabelKey), HostnameOf(bmc), username)
  }

  function ExtractCredentials(data: map<string, string>): Result<Creds> {
    var username := if "username" in data then data["username"] else "";
    var password := if "password" in data then data["password"] else "";
    if username == "" then Err("username not found in BMCSecret data")
    else if password == "" then Err("password not found in BMCSecret data")
    else Ok(Creds(username, password))
  }

  // ---------------------------------------------------------------- what these functions mean

  /** A non-empty hostname is the host part of a BMC's paths whatever else it has; without one it is a
      non-empty endpoint reference, and without that the BMC's name. */
  lemma HostPart(bmc: BMC, host: string)
    requires host != ""
    ensures bmc.hostname == Some(host) ==> HostnameOf(bmc) == host
    ensures bmc.hostname in {None, Some("")} && bmc.endpointRef == Some(host) ==> HostnameOf(bmc) == host
    ensures bmc.hostname in {None, Some("")} && bmc.endpointRef in {None, Some("")} ==> HostnameOf(bmc) == bmc.name
  {
  }

  /** The region part is the value of the region label exactly if it is present and not empty, and
      otherwise "unknown". */
  lemma RegionPart(bmc: BMC, key: string)
    ensures bmc.labels.Some? && key in bmc.labels.value && bmc.labels.value[key] != "" ==>
              RegionOf(bmc, key) == bmc.labels.value[key]
    ensures bmc.labels.None? || key !in bmc.labels.value || bmc.labels.value[key] == "" ==>
              RegionOf(bmc, key) == "unknown"
  {
  }

  /** Credentials are read exactly if username and password are both there and not empty. */
  lemma CredentialsRead(data: map<string, string>, c: Creds)
    ensures ExtractCredentials(data) == Ok(c) <==>
              && "username" in data && data["username"] == c.username && c.username != ""
              && "password" in data && data["password"] == c.password && c.password != ""
    ensures ExtractCredentials(data).Err? <==>
              || "username" !in data || data["username"] == ""
              || "password" !in data || data["password"] == ""
  {
  }

  /** The BMCs of a secret are those whose reference names it, in list order. */
  lemma BMCsOfSecret(bmcs: seq<BMC>, secretName: string, bmc: BMC)
    ensures BMCsOf([], secretName) == []
    ensures BMCsOf(bmcs + [bmc], secretName) ==
            BMCsOf(bmcs, secretName) + if bmc.secretRef == secretName then [bmc] else []
    ensures bmc in BMCsOf(bmcs, secretName) <==> bmc in bmcs && bmc.secretRef == secretName
  {
    assert (bmcs + [bmc])[..|bmcs|] == bmcs;
  }
}
