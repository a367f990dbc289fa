/** Component variants of the deployment model and the typed accessors of a DBMS. */
module Components {
  import opened Wrappers
  import opened ModelSupport

  /** The component variants a visitor distinguishes. */
  datatype ComponentKind =
    | Compute
    | SoftwareComponent
    | Database
    | Dbms
    | MysqlDatabase
    | MysqlDbms
    | Tomcat
    | WebServer
    | WebApplication

  /** A topology node: its name, its variant and the model entity it wraps. A
      variant adds no storage of its own beyond the entity. */
  datatype Component = Component(name: string, kind: ComponentKind, model: ModelEntity)

  /** Marks the component transformed and changes nothing else. */
  function MarkTransformed(c: Component): (r: Component)
    ensures IsTransformed(r.model)
    ensures r.name == c.name && r.kind == c.kind
    ensures r.model.entity == c.model.entity && r.model.typeChain == c.model.typeChain
  {
    c.(model := SetTransformed(c.model, true))
  }

  /** The DBMS port attribute. */
  const PortAttribute: Attribute := Attribute("port", IntegerType)

  /** The DBMS root password attribute. */
  const RootPasswordAttribute: Attribute := Attribute("root_password", StringType)

  /** A DBMS variant; MysqlDbms refines Dbms. */
  predicate IsDbms(kind: ComponentKind)
  {
    kind.Dbms? || kind.MysqlDbms?
  }

  /** The port of a DBMS: the value of its effective property "port". */
  function GetPort(dbms: Component): (r: Result<Option<Value>, ModelError>)
    requires IsDbms(dbms.kind)
    ensures r.Failure? <==> dbms.model.typeChain.None?
    ensures r.Success? && !DeclaresProperty(dbms.model, "port") ==> r.value.None?
    ensures r.Success? && DeclaresProperty(dbms.model, "port") ==>
      r.value == GetProperties(dbms.model).value["port"].value
  {
    GetPropertyValue(dbms.model, PortAttribute)
  }

  /** The root password of a DBMS: the value of its effective property "root_password". */
  function GetRootPassword(dbms: Component): (r: Result<Option<Value>, ModelError>)
    requires IsDbms(dbms.kind)
    ensures r.Failure? <==> dbms.model.typeChain.None?
    ensures r.Success? && !DeclaresProperty(dbms.model, "root_password") ==> r.value.None?
    ensures r.Success? && DeclaresProperty(dbms.model, "root_password") ==>
      r.value == GetProperties(dbms.model).value["root_password"].value
  {
    GetPropertyValue(dbms.model, RootPasswordAttribute)
  }

  /** The accessors read the wrapped entity only: two DBMS components over the same
      entity agree, whatever their name, variant or transformed flag. */
  lemma DbmsAccessorsReadOnlyTheEntity(d1: Component, d2: Component)
    requires IsDbms(d1.kind) && IsDbms(d2.kind)
    requires d1.model.entity == d2.model.entity && d1.model.typeChain == d2.model.typeChain
    ensures GetPort(d1) == GetPort(d2)
    ensures GetRootPassword(d1) == GetRootPassword(d2)
  {
    assert d2.model == SetTransformed(d1.model, d2.model.transformed);
    ResolutionIgnoresTransformed(d1.model, d2.model.transformed);
  }
}
