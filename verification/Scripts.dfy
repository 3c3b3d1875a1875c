/** The pentest scripts and the network mode each sandbox backend gives them. */
module Scripts {

  // Unknown is any script value without a script file.
  datatype Script =
    | Naabu | NmapRecon | NmapService | HTTPXProbe | Whatweb | TestSSL | CurlHeaders | Crawl | Gau
    | CeWL | FfufDisclosure | NmapMisconfig | FfufMisconfig | CurlCORS | Nuclei | Subfinder | DnsxBrute
    | Unknown(name: string)

  datatype Mode = TargetOnly | OpenEgress

  predicate HasScriptFile(s: Script) {
    !s.Unknown?
  }

  // networkModeFor of the Kubernetes backend.
  function KubernetesMode(s: Script): Mode {
    match s
    case Subfinder => OpenEgress
    case DnsxBrute => OpenEgress
    case Gau => OpenEgress
    case _ => TargetOnly
  }

  // networkModeFor of the Docker backend; the addresses and ports ride along unchanged.
  function DockerMode(s: Script): Mode {
    match s
    case Subfinder => OpenEgress
    case DnsxBrute => OpenEgress
    case Gau => OpenEgress
    case _ => TargetOnly
  }
}
