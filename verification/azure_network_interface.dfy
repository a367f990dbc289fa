/** An Azure network interface: the sub-resources it derives from its own name
    when its defaults are set, and the parameters and variables it requires of
    the deployment template. */
module Azure {
  import opened Wrappers

  /** A template parameter an Azure resource requires. */
  datatype AzureParameter = AzureParameter(parameterType: string, defaultValue: Option<string>)

  /** What a resource requires of the template: parameters and variables by name. */
  datatype Requirements = Requirements(parameters: map<string, AzureParameter>, variables: map<string, string>)

  /** A named sub-resource (network security group or public IP address) with
      the requirements its own class reports. */
  datatype SubResource = SubResource(name: string, requirements: Requirements)

  datatype SubnetReference = SubnetReference(id: string)

  datatype IpConfigurationProperties = IpConfigurationProperties(
    privateIpAllocationMethod: string,
    publicIpAddress: SubResource,
    subnet: SubnetReference)

  datatype IpConfiguration = IpConfiguration(name: string, properties: IpConfigurationProperties)

  datatype NetworkInterfaceProperties = NetworkInterfaceProperties(
    networkSecurityGroup: SubResource,
    ipConfiguration: IpConfiguration)

  /** A network interface after its defaults are set. `base` is what the generic
      resource part requires. */
  datatype NetworkInterface = NetworkInterface(
    name: string,
    apiVersion: string,
    base: Requirements,
    properties: NetworkInterfaceProperties)

  const ApiVersion: string := "2019-04-01"
  const SecurityGroupSuffix: string := "_securityGroup"
  const PublicIpAddressSuffix: string := "_publicIpAddress"
  const IpConfigurationSuffix: string := "_ipConfiguration"
  const DynamicAllocation: string := "Dynamic"
  const SubnetIdVariable: string := "[variables('subnet_id')]"

  /** A sub-resource name derived from the interface name by a fixed suffix. */
  function DerivedName(interfaceName: string, suffix: string): (r: string)
    ensures |r| == |interfaceName| + |suffix|
    ensures r[..|interfaceName|] == interfaceName && r[|interfaceName|..] == suffix
  {
    interfaceName + suffix
  }

  /** Builds an interface named `name` with its defaults set. The security group
      and the public IP address are created under derived names; the classes of
      those sub-resources report their requirements through the two given
      functions of the sub-resource's name. */
  function NewNetworkInterface(name: string, base: Requirements,
                               securityGroupRequirements: string -> Requirements,
                               publicIpRequirements: string -> Requirements): (r: NetworkInterface)
    ensures r.name == name && r.apiVersion == ApiVersion && r.base == base
    ensures r.properties.networkSecurityGroup.name == DerivedName(name, SecurityGroupSuffix)
    ensures r.properties.ipConfiguration.name == DerivedName(name, IpConfigurationSuffix)
    ensures r.properties.ipConfiguration.properties.publicIpAddress.name == DerivedName(name, PublicIpAddressSuffix)
    ensures r.properties.ipConfiguration.properties.privateIpAllocationMethod == DynamicAllocation
    ensures r.properties.ipConfiguration.properties.subnet.id == SubnetIdVariable
    ensures r.properties.networkSecurityGroup.requirements ==
      securityGroupRequirements(DerivedName(name, SecurityGroupSuffix))
    ensures r.properties.ipConfiguration.properties.publicIpAddress.requirements ==
      publicIpRequirements(DerivedName(name, PublicIpAddressSuffix))
  {
    var securityGroupName := DerivedName(name, SecurityGroupSuffix);
    var publicIpName := DerivedName(name, PublicIpAddressSuffix);
    NetworkInterface(name, ApiVersion, base, NetworkInterfaceProperties(
      SubResource(securityGroupName, securityGroupRequirements(securityGroupName)),
      IpConfiguration(DerivedName(name, IpConfigurationSuffix), IpConfigurationProperties(
        DynamicAllocation,
        SubResource(publicIpName, publicIpRequirements(publicIpName)),
        SubnetReference(SubnetIdVariable)))))
  }

  function GetNetworkSecurityGroup(ni: NetworkInterface): SubResource
  {
    ni.properties.networkSecurityGroup
  }

  function GetPublicIpAddress(ni: NetworkInterface): SubResource
  {
    ni.properties.ipConfiguration.properties.publicIpAddress
  }

  /** The accessors of a freshly built interface return exactly the sub-resources
      its defaults created, under their derived names. */
  lemma AccessorsReturnDefaults(name: string, base: Requirements,
                                securityGroupRequirements: string -> Requirements,
                                publicIpRequirements: string -> Requirements)
    ensures var ni := NewNetworkInterface(name, base, securityGroupRequirements, publicIpRequirements);
            && GetNetworkSecurityGroup(ni) == SubResource(DerivedName(name, SecurityGroupSuffix),
                 securityGroupRequirements(DerivedName(name, SecurityGroupSuffix)))
            && GetPublicIpAddress(ni) == SubResource(DerivedName(name, PublicIpAddressSuffix),
                 publicIpRequirements(DerivedName(name, PublicIpAddressSuffix)))
  {
  }

  /** Copies every entry of `overriding` into `m`, replacing same-named entries. */
  function PutAll<V>(m: map<string, V>, overriding: map<string, V>): (r: map<string, V>)
    ensures r.Keys == m.Keys + overriding.Keys
    ensures forall k :: k in overriding ==> r[k] == overriding[k]
    ensures forall k :: k in m && k !in overriding ==> r[k] == m[k]
  {
    m + overriding
  }

  /** The parameters the interface requires: the generic resource's, then the
      security group's, then the public IP address's, each later one replacing
      same-named earlier ones. */
  function GetRequiredParameters(ni: NetworkInterface): (r: map<string, AzureParameter>)
    ensures r.Keys == ni.base.parameters.Keys
                    + GetNetworkSecurityGroup(ni).requirements.parameters.Keys
                    + GetPublicIpAddress(ni).requirements.parameters.Keys
    ensures forall k :: k in GetPublicIpAddress(ni).requirements.parameters ==>
      r[k] == GetPublicIpAddress(ni).requirements.parameters[k]
    ensures forall k :: k in GetNetworkSecurityGroup(ni).requirements.parameters &&
                        k !in GetPublicIpAddress(ni).requirements.parameters ==>
      r[k] == GetNetworkSecurityGroup(ni).requirements.parameters[k]
    ensures forall k :: k in ni.base.parameters &&
                        k !in GetNetworkSecurityGroup(ni).requirements.parameters &&
                        k !in GetPublicIpAddress(ni).requirements.parameters ==>
      r[k] == ni.base.parameters[k]
  {
    var params := ni.base.parameters;
    var params := PutAll(params, GetNetworkSecurityGroup(ni).requirements.parameters);
    PutAll(params, GetPublicIpAddress(ni).requirements.parameters)
  }

  /** The variables the interface requires, merged in the same order. */
  function GetRequiredVariables(ni: NetworkInterface): (r: map<string, string>)
    ensures r.Keys == ni.base.variables.Keys
                    + GetNetworkSecurityGroup(ni).requirements.variables.Keys
                    + GetPublicIpAddress(ni).requirements.variables.Keys
    ensures forall k :: k in GetPublicIpAddress(ni).requirements.variables ==>
      r[k] == GetPublicIpAddress(ni).requirements.variables[k]
    ensures forall k :: k in GetNetworkSecurityGroup(ni).requirements.variables &&
                        k !in GetPublicIpAddress(ni).requirements.variables ==>
      r[k] == GetNetworkSecurityGroup(ni).requirements.variables[k]
    ensures forall k :: k in ni.base.variables &&
                        k !in GetNetworkSecurityGroup(ni).requirements.variables &&
                        k !in GetPublicIpAddress(ni).requirements.variables ==>
      r[k] == ni.base.variables[k]
  {
    var vars := ni.base.variables;
    var vars := PutAll(vars, GetNetworkSecurityGroup(ni).requirements.variables);
    PutAll(vars, GetPublicIpAddress(ni).requirements.variables)
  }

  /** The merge invents nothing: every required parameter is taken, with its
      value, from the generic resource, the security group or the public IP
      address. */
  lemma RequiredParametersComeFromSources(ni: NetworkInterface)
    ensures forall k :: k in GetRequiredParameters(ni) ==>
      (k in ni.base.parameters && GetRequiredParameters(ni)[k] == ni.base.parameters[k]) ||
      (k in GetNetworkSecurityGroup(ni).requirements.parameters &&
         GetRequiredParameters(ni)[k] == GetNetworkSecurityGroup(ni).requirements.parameters[k]) ||
      (k in GetPublicIpAddress(ni).requirements.parameters &&
         GetRequiredParameters(ni)[k] == GetPublicIpAddress(ni).requirements.parameters[k])
  {
  }

  /** Distinct interface names derive distinct names for each sub-resource. */
  lemma DerivedNameInjective(n1: string, n2: string, suffix: string)
    requires DerivedName(n1, suffix) == DerivedName(n2, suffix)
    ensures n1 == n2
  {
    assert n1 == DerivedName(n1, suffix)[..|n1|];
  }

  /** One interface's three derived names are pairwise distinct, and none is the
      interface's own name. */
  lemma DerivedNamesDistinct(name: string)
    ensures DerivedName(name, SecurityGroupSuffix) != DerivedName(name, PublicIpAddressSuffix)
    ensures DerivedName(name, SecurityGroupSuffix) != DerivedName(name, IpConfigurationSuffix)
    ensures DerivedName(name, PublicIpAddressSuffix) != DerivedName(name, IpConfigurationSuffix)
    ensures name !in {DerivedName(name, SecurityGroupSuffix), DerivedName(name, PublicIpAddressSuffix),
                      DerivedName(name, IpConfigurationSuffix)}
  {
    assert DerivedName(name, PublicIpAddressSuffix)[|name| + 1] == 'p';
    assert DerivedName(name, IpConfigurationSuffix)[|name| + 1] == 'i';
  }
}
