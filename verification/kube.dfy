/**
 * The few parts of Kubernetes objects the component code decides: names,
 * ports, volumes and mounts, probe thresholds, storage class and secret data.
 * Everything else of the platform's object model is left out.
 */
module Kube {
  import opened Common

  datatype VolumeSource =
    | EmptyDir
    | PersistentVolumeClaimSource(claimName: string)
    | SecretSource(secretName: string, defaultMode: int)

  datatype Volume = Volume(name: string, source: VolumeSource)

  datatype VolumeMount = VolumeMount(name: string, mountPath: string)

  datatype ContainerPort = ContainerPort(name: string, containerPort: int)

  /** A service port forwarding `port` to the container port named `targetPort`. */
  datatype ServicePort = ServicePort(name: string, port: int, targetPort: string)

  /** What a probe runs; only the database's administrative status command occurs here. */
  datatype ProbeAction = AdminStatusCommand

  datatype Probe = Probe(
    action: ProbeAction,
    failureThreshold: int,
    initialDelaySeconds: int,
    periodSeconds: int,
    successThreshold: int,
    timeoutSeconds: int)

  datatype PodSecurityContext = PodSecurityContext(runAsUser: int, runAsGroup: int, fsGroup: int)

  datatype SecurityContext = SecurityContext(readOnlyRootFilesystem: bool)

  /** A claim's name, access modes, storage request (a quantity) and storage class (null: cluster default). */
  datatype PersistentVolumeClaim = PersistentVolumeClaim(
    name: string,
    accessModes: seq<string>,
    storageRequest: string,
    storageClassName: JString)

  datatype Secret = Secret(name: string, secretType: string, stringData: map<string, string>)

  /** Workload and service objects are built by code outside this model; only their names are kept. */
  datatype StatefulSet = StatefulSet(name: string)

  datatype Service = Service(name: string)

  datatype Resource =
    | PvcResource(pvc: PersistentVolumeClaim)
    | StatefulSetResource(statefulSet: StatefulSet)
    | ServiceResource(service: Service)
    | SecretResource(secret: Secret)

  function VolumeNames(volumes: seq<Volume>): set<string> {
    set i | 0 <= i < |volumes| :: volumes[i].name
  }

  /** Every mount refers to a volume the pod declares. */
  predicate MountsResolve(volumes: seq<Volume>, mounts: seq<VolumeMount>) {
    forall i :: 0 <= i < |mounts| ==> mounts[i].name in VolumeNames(volumes)
  }

  /** Every service port targets a container port by name, with the same port number. */
  predicate PortsResolve(servicePorts: seq<ServicePort>, containerPorts: seq<ContainerPort>) {
    forall i :: 0 <= i < |servicePorts| ==>
      exists j :: 0 <= j < |containerPorts| &&
        containerPorts[j].name == servicePorts[i].targetPort &&
        containerPorts[j].containerPort == servicePorts[i].port
  }
}
