/**
 * The landing page's flow: role selection, then the questionnaire, then
 * the gift, then back to selection. Saving the answers is a parameter
 * (its outcome), and what the page sends and shows is returned.
 */
module IndexPage {
  import opened Wrappers
  import opened Roles

  datatype GameState = Selection | QuestionnaireStep | Gift

  /** The outcome of saving the answers: stored, an error returned, or an exception thrown. */
  datatype SaveOutcome = Saved | SaveError | SaveThrew

  /** What the visitor is told about the save: nothing, or an error toast. */
  datatype Notice = Silent | ErrorToast

  /** The record sent to the database on completion. */
  datatype Submission = Submission(userType: Option<Role>, responses: map<string, string>)

  /** The one component rendered below the decorations, if any. */
  datatype Screen = RoleSelectionScreen | QuestionnaireScreen(role: Role) | GiftRevealScreen | NoScreen

  class Index {
    var gameState: GameState
    var userType: Option<Role>

    /** Selection goes with no role chosen, the questionnaire with one. */
    ghost predicate Valid()
      reads this
    {
      && (gameState == Selection ==> userType == None)
      && (gameState == QuestionnaireStep ==> userType.Some?)
    }

    /**
     * The rendered screen: the questionnaire only in its state and with a
     * role, and in a valid state exactly one screen for each state.
     */
    function CurrentScreen(): (s: Screen)
      reads this
      ensures s.QuestionnaireScreen? <==> gameState == QuestionnaireStep && userType.Some?
      ensures s.QuestionnaireScreen? ==> userType == Some(s.role)
      ensures s == RoleSelectionScreen <==> gameState == Selection
      ensures s == GiftRevealScreen <==> gameState == Gift
      ensures Valid() ==> s != NoScreen
    {
      match gameState
      case Selection => RoleSelectionScreen
      case QuestionnaireStep => if userType.Some? then QuestionnaireScreen(userType.value) else NoScreen
      case Gift => GiftRevealScreen
    }

    constructor()
      ensures Valid() && gameState == Selection && userType == None
    {
      gameState := Selection;
      userType := None;
    }

    method HandleRoleSelect(role: Role)
      requires Valid()
      modifies this
      ensures Valid()
      ensures userType == Some(role) && gameState == QuestionnaireStep
      ensures CurrentScreen() == QuestionnaireScreen(role)
    {
      userType := Some(role);
      gameState := QuestionnaireStep;
    }

    /**
     * The questionnaire's onComplete: the answers are sent with the chosen
     * role, and whatever the save does the page moves on to the gift.
     */
    method HandleQuestionnaireComplete(responses: map<string, string>, save: SaveOutcome)
      returns (sent: Submission, notice: Notice)
      requires Valid()
      modifies this
      ensures Valid()
      ensures gameState == Gift && userType == old(userType)
      ensures sent == Submission(old(userType), responses)
      ensures notice == ErrorToast <==> save == SaveError
    {
      sent := Submission(userType, responses);
      notice := if save == SaveError then ErrorToast else Silent;
      gameState := Gift;
    }

    /** The gift screen's restart. */
    method HandleRestart()
      requires Valid()
      modifies this
      ensures Valid()
      ensures gameState == Selection && userType == None
    {
      gameState := Selection;
      userType := None;
    }

    /** The questionnaire's onBack. */
    method HandleBack()
      requires Valid()
      modifies this
      ensures Valid()
      ensures gameState == Selection && userType == None
    {
      gameState := Selection;
      userType := None;
    }
  }
}
