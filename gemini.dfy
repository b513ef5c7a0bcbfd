/** The AI delegate's boundary. The remote text model is a parameter
    `model: string -> Completion`: what it answers to a prompt, or that the
    call failed. The service turns every outcome into reply text, so a
    failure never reaches the caller. */
module GeminiService {

  datatype Completion = Answered(text: string) | Failed

  /** Reply when the model answers with empty text. */
  const Speechless := "I'm speechless."
  /** Reply when the call to the model fails. */
  const Glitch := "I encountered a glitch in the matrix."

  /** `generateBotResponse(prompt)`: the model's text when it gave some, a
      fixed fallback otherwise. The reply is never empty. */
  function GenerateBotResponse(model: string -> Completion, prompt: string): (r: string)
    ensures r != []
    ensures r == Glitch <==> model(prompt) == Failed || model(prompt) == Answered(Glitch)
    ensures model(prompt).Answered? && model(prompt).text != [] ==> r == model(prompt).text
    ensures r == Speechless || r == Glitch || model(prompt) == Answered(r)
  {
    match model(prompt)
    case Failed => Glitch
    case Answered(text) => if text == [] then Speechless else text
  }
}
