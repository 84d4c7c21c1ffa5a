/** What the status bar item is told to show. The item itself is a host UI
    surface; the model keeps only which of its setters was called and with
    what text. */
module StatusBar {

  datatype Display =
    | Loading          // setLoading: "$(loading~spin) Arcade Loading..."
    | Setup            // setSetup: "$(gear) Setup Arcade", bound to the init command
    | Error            // setError: "$(error) Arcade Error", bound to the refresh command
    | Text(text: string) // setText: free text, bound to the Slack link
}
