/** A service instance as DNS-based service discovery describes it. */
module Services {
  import opened Bytes

  datatype Service = Service(
    serviceType: string,
    instanceName: string,
    hostname: string,
    port: u16,
    priority: u16,
    weight: u16,
    addresses: seq<string>,
    txt: map<string, string>,
    ttl: nat)

  const BlankService := Service("", "", "", 0, 0, 0, [], map[], 0)
}
