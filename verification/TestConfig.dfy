/** The test config message (common/syntest.proto) as the controller publishes it. */
module TestConfigs {
  import opened Ids

  /** `body` stands for the fields that only the plugin reads. */
  datatype TestConfig = TestConfig(
    name: string,
    namespace: string,
    version: string,
    labels: map<string, string>,
    node: string,
    pods: map<string, string>,
    body: string)

  function Id(c: TestConfig): string {
    ConfigId(c.name, c.namespace)
  }

  function Get<V>(m: map<string, V>, id: string): Option<V> {
    if id in m then Some(m[id]) else None
  }
}
