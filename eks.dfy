/** The cloud provider behind clusterSecretsFromClusters, as an in-memory
    oracle.  A listing cursor is the index of the page it designates; the
    credentials obtained for a role see one account, and a role that cannot
    be assumed makes every call made with it fail. */
module Eks {
  import opened Common

  /** What DescribeCluster reports about one cluster. */
  datatype EksCluster = EksCluster(endpoint: string, caData: string, tags: map<string, string>)

  /** One account as seen through a set of credentials: its listing split into
      pages, the page indexes whose listing call fails, and the clusters that
      can be described (a name missing here fails to describe). */
  datatype Account = Account(pages: seq<seq<string>>, listFaults: set<nat>, clusters: map<string, EksCluster>)

  /** Role ARN (the empty string for the ambient credentials) to the account
      those credentials see. */
  datatype Cloud = Cloud(accounts: map<string, Account>)

  /** One page of ListClusters output. */
  datatype ListPage = ListPage(clusters: seq<string>, nextToken: Option<nat>)

  function PageCount(cloud: Cloud, roleArn: string): nat
  {
    if roleArn in cloud.accounts then |cloud.accounts[roleArn].pages| else 0
  }

  /** ListClusters: a nil cursor asks for the first page; the answer carries
      the cursor of the following page, if there is one. */
  function ListClusters(cloud: Cloud, roleArn: string, token: Option<nat>): Result<ListPage, Error>
  {
    if roleArn !in cloud.accounts then Failure(ListClustersFailed)
    else
      var account := cloud.accounts[roleArn];
      var i := token.GetOr(0);
      if i in account.listFaults then Failure(ListClustersFailed)
      else if i < |account.pages| then
        Success(ListPage(account.pages[i], if i + 1 < |account.pages| then Some(i + 1) else None))
      else Success(ListPage([], None))
  }

  function DescribeCluster(cloud: Cloud, roleArn: string, name: string): Result<EksCluster, Error>
  {
    if roleArn in cloud.accounts && name in cloud.accounts[roleArn].clusters then
      Success(cloud.accounts[roleArn].clusters[name])
    else Failure(DescribeClusterFailed(name))
  }
}
