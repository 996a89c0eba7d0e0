/** Cluster certificates: how they are named and stored, and the operations on a list of them. */
module Certificates {
  import opened Wrappers

  datatype Purpose = Kubeconfig | ClusterCA | EtcdCA | ServiceAccount | FrontProxyCA | AuthProxyCA | APIServerEtcdClient

  datatype ObjectKey = ObjectKey(namespace: string, name: string)

  /** Key material is opaque. */
  datatype KeyPair = KeyPair(cert: string, key: string)

  datatype Secret = Secret(data: map<string, string>, cluster: string, owner: Option<string>)

  datatype Certificate = Certificate(purpose: Purpose, keyPair: Option<KeyPair>, generated: bool)

  type Secrets = map<ObjectKey, Secret>

  const TLS_KEY_DATA_NAME := "tls.key"
  const TLS_CRT_DATA_NAME := "tls.crt"

  function Suffix(p: Purpose): string {
    match p
    case Kubeconfig => "kubeconfig"
    case ClusterCA => "ca"
    case EtcdCA => "etcd"
    case ServiceAccount => "sa"
    case FrontProxyCA => "proxy"
    case AuthProxyCA => "auth-proxy"
    case APIServerEtcdClient => "apiserver-etcd-client"
  }

  function Name(cluster: string, p: Purpose): string {
    cluster + "-" + Suffix(p)
  }

  function SecretKey(cluster: ObjectKey, p: Purpose): ObjectKey {
    ObjectKey(cluster.namespace, Name(cluster.name, p))
  }

  // ----- Names ------------------------------------------------------------------------------------

  lemma SuffixEnds(p: Purpose)
    ensures |Suffix(p)| >= 2
    ensures var s := Suffix(p);
            (s[|s| - 1], s[|s| - 2]) == match p
                                        case Kubeconfig => ('g', 'i')
                                        case ClusterCA => ('a', 'c')
                                        case EtcdCA => ('d', 'c')
                                        case ServiceAccount => ('a', 's')
                                        case FrontProxyCA => ('y', 'x')
                                        case AuthProxyCA => ('y', 'x')
                                        case APIServerEtcdClient => ('t', 'n')
  {
  }

  lemma NameEnds(cluster: string, p: Purpose)
    ensures var n, s := Name(cluster, p), Suffix(p);
            |n| >= 2 && n[|n| - 1] == s[|s| - 1] && n[|n| - 2] == s[|s| - 2]
  {
    SuffixEnds(p);
  }

  /** Two secrets share a name exactly when they are the same, or one is the front-proxy CA of a cluster whose name is
      the other cluster's with "-auth" appended, and the other that cluster's auth-proxy CA. */
  lemma NamesCollideExactly(c: string, p: Purpose, d: string, q: Purpose)
    ensures Name(c, p) == Name(d, q) <==>
              || (c == d && p == q)
              || (p == FrontProxyCA && q == AuthProxyCA && c == d + "-auth")
              || (p == AuthProxyCA && q == FrontProxyCA && d == c + "-auth")
  {
    NameEnds(c, p);
    NameEnds(d, q);
    SuffixEnds(p);
    SuffixEnds(q);
    if p == q {
      SameSuffix(c, d, Suffix(p));
    } else if p == FrontProxyCA && q == AuthProxyCA {
      ProxyNames(c, d);
    } else if p == AuthProxyCA && q == FrontProxyCA {
      ProxyNames(d, c);
    }
  }

  lemma SameSuffix(c: string, d: string, s: string)
    ensures c + "-" + s == d + "-" + s <==> c == d
  {
    if c + "-" + s == d + "-" + s {
      assert c == (c + "-" + s)[..|c|] && d == (d + "-" + s)[..|d|];
    }
  }

  lemma ProxyNames(c: string, d: string)
    ensures Name(c, FrontProxyCA) == Name(d, AuthProxyCA) <==> c == d + "-auth"
  {
    assert "-auth-proxy" == "-auth" + "-proxy";
    assert Name(d, AuthProxyCA) == (d + "-auth") + "-proxy";
    assert Name(c, FrontProxyCA) == c + "-proxy";
    if c + "-proxy" == (d + "-auth") + "-proxy" {
      assert c == (c + "-proxy")[..|c|] && d + "-auth" == ((d + "-auth") + "-proxy")[..|d + "-auth"|];
    }
  }

  // ----- Secrets ----------------------------------------------------------------------------------

  function AsSecret(c: Certificate, cluster: ObjectKey, owner: string): Secret
    requires c.keyPair.Some?
  {
    Secret(map[TLS_KEY_DATA_NAME := c.keyPair.value.key, TLS_CRT_DATA_NAME := c.keyPair.value.cert], cluster.name,
           if c.generated then Some(owner) else None)
  }

  /** A missing key is allowed, a missing certificate is not. */
  function SecretToKeyPair(s: Secret): Option<KeyPair> {
    if TLS_CRT_DATA_NAME !in s.data then None
    else Some(KeyPair(s.data[TLS_CRT_DATA_NAME], if TLS_KEY_DATA_NAME in s.data then s.data[TLS_KEY_DATA_NAME] else ""))
  }

  /** What is saved is what is read back. */
  lemma SecretRoundTrip(c: Certificate, cluster: ObjectKey, owner: string)
    requires c.keyPair.Some?
    ensures SecretToKeyPair(AsSecret(c, cluster, owner)) == c.keyPair
  {
    assert TLS_KEY_DATA_NAME[4] != TLS_CRT_DATA_NAME[4];
  }
}
