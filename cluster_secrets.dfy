/** Synthesis of the registration record (a Secret) for one cluster:
    newClusterSecretFromValues / newClusterSecretFromCluster, the sentinel
    label, the exact text of the embedded configuration document, and the
    parameter records of the run package. */
module ClusterSecrets {
  import opened Common
  import opened Eks

  const SecretLabelKeyArgoCDType: string := "argocd.argoproj.io/secret-type"
  const SecretLabelValueArgoCDCluster: string := "cluster"

  /** Parameters of the single-record commands (run.Config). */
  datatype Config = Config(
    dryRun: bool,
    ns: string,
    roleArn: string,
    name: string,
    endpoint: string,
    caData: string,
    labels: map<string, string>,
    awsAuthConfigRoleArn: string)

  /** Parameters of the set commands (run.ClusterSetConfig). */
  datatype ClusterSetConfig = ClusterSetConfig(
    dryRun: bool,
    ns: string,
    roleArn: string,
    eksTags: map<string, string>,
    labels: map<string, string>,
    awsAuthConfigRoleArn: string)

  /** A Secret as the registry stores it: identity, labels and the string
      payload. */
  datatype Secret = Secret(name: string, namespace: string, labels: map<string, string>, stringData: map<string, string>)
  {
    function Key(): ObjectKey { ObjectKey(namespace, name) }
  }

  /** The label map of a synthesized record: the sentinel pair first, then
      every caller label written over it, so the caller wins on every key,
      the sentinel key included. */
  function ClusterLabels(labels: map<string, string>): (r: map<string, string>)
    ensures r.Keys == labels.Keys + {SecretLabelKeyArgoCDType}
    ensures forall k | k in labels :: r[k] == labels[k]
    ensures SecretLabelKeyArgoCDType !in labels ==> r[SecretLabelKeyArgoCDType] == SecretLabelValueArgoCDCluster
  {
    map[SecretLabelKeyArgoCDType := SecretLabelValueArgoCDCluster] + labels
  }

  // The fixed pieces of the configuration document, between the three
  // substituted fields and the insecure flag.  A leading double quote is
  // written as its own literal so that the verifier sees the first character.
  const ConfigHead: string := "{\n      \"awsAuthConfig\": {\n        \"clusterName\": \""
  const ConfigAfterName: string := "\"" + ",\n        \"roleARN\": \""
  const ConfigAfterRole: string := "\"" + "\n      },\n      \"tlsClientConfig\": {\n        \"insecure\": "
  const ConfigAfterInsecure: string := ",\n        \"caData\": \""
  const ConfigTail: string := "\"" + "\n      }\n    }\n"

  /** The structured content of the configuration document. */
  datatype AwsAuthConfig = AwsAuthConfig(clusterName: string, roleArn: string)
  datatype TlsClientConfig = TlsClientConfig(insecure: bool, caData: string)
  datatype ClusterConfig = ClusterConfig(awsAuthConfig: AwsAuthConfig, tlsClientConfig: TlsClientConfig)

  /** The document exactly as the source formats it: the three values are
      substituted verbatim, without any escaping, and insecure is the literal
      false. */
  function ConfigText(clusterName: string, roleArn: string, caData: string): string
  {
    ConfigHead + (clusterName + (ConfigAfterName + (roleArn + (ConfigAfterRole + ("false" + (ConfigAfterInsecure + (caData + ConfigTail)))))))
  }

  /** The text after a literal prefix, if the text starts with it. */
  function ExpectLiteral(lit: string, s: string): (r: Option<string>)
    ensures r.Some? <==> lit <= s
    ensures r.Some? ==> s == lit + r.value
  {
    if lit <= s then Some(s[|lit|..]) else None
  }

  /** Splits a string at its first double quote: the field before it and the
      rest, starting at the quote. */
  function TakeField(s: string): (r: (string, string))
    ensures r.0 + r.1 == s
    ensures '"' !in r.0
    ensures r.1 != [] ==> r.1[0] == '"'
  {
    if s == [] || s[0] == '"' then ([], s)
    else
      var (f, rest) := TakeField(s[1..]);
      var field := [s[0]] + f;
      assert field + rest == [s[0]] + (f + rest) == s;
      assert forall c | c in field :: c == s[0] || c in f;
      (field, rest)
  }

  /** A reader for documents of the shape ConfigText writes. */
  function ParseConfigText(t: string): Option<ClusterConfig>
  {
    match ExpectLiteral(ConfigHead, t)
    case None => None
    case Some(s1) =>
      var (name, s2) := TakeField(s1);
      match ExpectLiteral(ConfigAfterName, s2)
      case None => None
      case Some(s3) =>
        var (role, s4) := TakeField(s3);
        match ExpectLiteral(ConfigAfterRole, s4)
        case None => None
        case Some(s5) =>
          var (insecure, s6) :=
            if "false" <= s5 then (Some(false), s5[5..])
            else if "true" <= s5 then (Some(true), s5[4..])
            else (None, s5);
          if insecure.None? then None
          else
            match ExpectLiteral(ConfigAfterInsecure, s6)
            case None => None
            case Some(s7) =>
              var (ca, s8) := TakeField(s7);
              if s8 == ConfigTail then
                Some(ClusterConfig(AwsAuthConfig(name, role), TlsClientConfig(insecure.value, ca)))
              else None
  }

  lemma LiteralPrefix(lit: string, rest: string)
    ensures ExpectLiteral(lit, lit + rest) == Some(rest)
  {
    assert (lit + rest)[..|lit|] == lit;
    assert (lit + rest)[|lit|..] == rest;
  }

  lemma {:induction false} TakeFieldOfQuoteFree(f: string, rest: string)
    requires '"' !in f
    requires rest != [] && rest[0] == '"'
    ensures TakeField(f + rest) == (f, rest)
  {
    if f == [] {
      assert f + rest == rest;
    } else {
      assert (f + rest)[1..] == f[1..] + rest;
      TakeFieldOfQuoteFree(f[1..], rest);
      assert [f[0]] + f[1..] == f;
    }
  }

  /** The configuration document reads back as the three values it was
      given, with insecure false, whenever none of them holds a double quote
      (the source does not escape them). */
  lemma ConfigTextRoundTrip(clusterName: string, roleArn: string, caData: string)
    requires '"' !in clusterName && '"' !in roleArn && '"' !in caData
    ensures ParseConfigText(ConfigText(clusterName, roleArn, caData))
         == Some(ClusterConfig(AwsAuthConfig(clusterName, roleArn), TlsClientConfig(false, caData)))
  {
    var tail7 := caData + ConfigTail;
    var tail6 := ConfigAfterInsecure + tail7;
    var tail5 := "false" + tail6;
    var tail4 := ConfigAfterRole + tail5;
    var tail3 := roleArn + tail4;
    var tail2 := ConfigAfterName + tail3;
    var tail1 := clusterName + tail2;
    LiteralPrefix(ConfigHead, tail1);
    TakeFieldOfQuoteFree(clusterName, tail2);
    LiteralPrefix(ConfigAfterName, tail3);
    TakeFieldOfQuoteFree(roleArn, tail4);
    LiteralPrefix(ConfigAfterRole, tail5);
    assert "false" <= tail5 && tail5[5..] == tail6;
    LiteralPrefix(ConfigAfterInsecure, tail7);
    TakeFieldOfQuoteFree(caData, ConfigTail);
  }

  /** newClusterSecretFromValues. */
  function NewClusterSecretFromValues(
    ns: string, name: string, labels: map<string, string>,
    server: string, base64CA: string, awsAuthConfigRoleArn: string): (s: Secret)
    ensures s.name == name && s.namespace == ns
    ensures s.labels == ClusterLabels(labels)
    ensures s.stringData.Keys == {"name", "server", "config"}
    ensures s.stringData["name"] == name && s.stringData["server"] == server
    ensures s.stringData["config"] == ConfigText(name, awsAuthConfigRoleArn, base64CA)
  {
    var config := ConfigText(name, awsAuthConfigRoleArn, base64CA);
    Secret(name, ns, ClusterLabels(labels), map["name" := name, "server" := server, "config" := config])
  }

  /** The configuration document of a synthesized record reads back as
      clusterName = name, roleARN = the auth role, caData = the CA data and
      insecure false, whenever none of them holds a double quote. */
  lemma RecordConfig(ns: string, name: string, labels: map<string, string>,
                     server: string, base64CA: string, awsAuthConfigRoleArn: string)
    requires '"' !in name && '"' !in awsAuthConfigRoleArn && '"' !in base64CA
    ensures ParseConfigText(NewClusterSecretFromValues(ns, name, labels, server, base64CA, awsAuthConfigRoleArn).stringData["config"])
         == Some(ClusterConfig(AwsAuthConfig(name, awsAuthConfigRoleArn), TlsClientConfig(false, base64CA)))
  {
    ConfigTextRoundTrip(name, awsAuthConfigRoleArn, base64CA);
  }

  /** newClusterSecretFromCluster: the endpoint and CA data come from the
      DescribeCluster answer. */
  function NewClusterSecretFromCluster(
    ns: string, name: string, labels: map<string, string>,
    cluster: EksCluster, awsAuthConfigRoleArn: string): (s: Secret)
    ensures s.Key() == ObjectKey(ns, name) && s.labels == ClusterLabels(labels)
    ensures s.stringData.Keys == {"name", "server", "config"}
    ensures s.stringData["name"] == name && s.stringData["server"] == cluster.endpoint
  {
    NewClusterSecretFromValues(ns, name, labels, cluster.endpoint, cluster.caData, awsAuthConfigRoleArn)
  }

  /** The configuration document of a described cluster's record reads back
      with that cluster's CA data. */
  lemma ClusterRecordConfig(ns: string, name: string, labels: map<string, string>,
                            cluster: EksCluster, awsAuthConfigRoleArn: string)
    requires '"' !in name && '"' !in awsAuthConfigRoleArn && '"' !in cluster.caData
    ensures ParseConfigText(NewClusterSecretFromCluster(ns, name, labels, cluster, awsAuthConfigRoleArn).stringData["config"])
         == Some(ClusterConfig(AwsAuthConfig(name, awsAuthConfigRoleArn), TlsClientConfig(false, cluster.caData)))
  {
    RecordConfig(ns, name, labels, cluster.endpoint, cluster.caData, awsAuthConfigRoleArn);
  }
}
