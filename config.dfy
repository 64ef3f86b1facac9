/** The GitHub coordinates from which published articles load their images (config.js). */
module Config {
  import opened Text

  const Username: string := "hevi35-coder"
  const Repo: string := "devto-publisher"
  const Branch: string := "main"

  const RawHost: string := "https://raw.githubusercontent.com/"

  /** `config.github.rawBaseUrl`: the raw-file root of the repository's branch. */
  function RawBaseUrl(): (u: string)
    ensures RawHost <= u
    ensures EndsWith(u, "/" + Branch)
  {
    RawHost + Username + "/" + Repo + "/" + Branch
  }

  /** `config.github.assetBaseUrl`: the raw-file URL of the `assets/` directory. */
  function AssetBaseUrl(): (u: string)
    ensures RawBaseUrl() <= u
    ensures EndsWith(u, "/assets/")
    ensures "https://" <= u
  {
    RawBaseUrl() + "/assets/"
  }
}
