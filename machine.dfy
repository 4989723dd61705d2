/** The records of the Talos machine API (package `machine`, and the
    flattened `client.ServiceInfo`) that the client and the handlers read.
    Unsigned 64-bit protobuf fields are `nat`, signed ones `int`. */
module Machine {

  /** A service as one node reports it. Only `Health.Healthy` of the health
      record is read. */
  datatype Service = Service(id: string, state: string, healthy: bool)

  /** All services of one node: `machine.ServiceList`, with the node's
      hostname from its metadata. */
  datatype ServiceList = ServiceList(hostname: string, services: seq<Service>)

  datatype ServiceListResponse = ServiceListResponse(messages: seq<ServiceList>)

  /** One service on one node: `client.ServiceInfo`. */
  datatype ServiceInfo = ServiceInfo(hostname: string, service: Service)

  datatype MemberStatus = MemberStatus(memberId: nat, leader: nat, dbSize: int, dbSizeInUse: int)

  /** One etcd member's status, reported by the node that hosts it. */
  datatype EtcdStatus = EtcdStatus(hostname: string, memberStatus: MemberStatus)

  datatype EtcdStatusResponse = EtcdStatusResponse(messages: seq<EtcdStatus>)

  datatype AlarmType = AlarmNone | AlarmNoSpace | AlarmCorrupt

  datatype EtcdMemberAlarm = EtcdMemberAlarm(memberId: nat, alarm: AlarmType)

  /** The alarms one node reports. */
  datatype EtcdAlarm = EtcdAlarm(hostname: string, memberAlarms: seq<EtcdMemberAlarm>)

  datatype EtcdAlarmListResponse = EtcdAlarmListResponse(messages: seq<EtcdAlarm>)
}
