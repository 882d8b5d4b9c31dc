/** The job records and the static catalog the application ships with: six
    listings plus the option lists of the three facet filters, each list
    headed by its "match everything" sentinel. */
module Catalog {

  /** One listing. `employmentType` is the record's `type` field. */
  datatype Job = Job(
    id: int,
    title: string,
    company: string,
    location: string,
    category: string,
    experienceLevel: string,
    salary: string,
    employmentType: string,
    remote: bool,
    description: string,
    requirements: seq<string>,
    benefits: seq<string>,
    postedDate: string,
    applicationDeadline: string)

  /** The facet values that switch a facet filter off. */
  const AllCategories := "All Categories"
  const AllLocations := "All Locations"
  const AllLevels := "All Levels"

  /** The pseudo-location that selects remote jobs instead of a city. */
  const RemoteLocation := "Remote"

  /** The bundled catalog, in its shipped order. */
  const MockJobs: seq<Job> := [
    Job(
      id := 1,
      title := "Senior Frontend Developer",
      company := "TechCorp Inc.",
      location := "San Francisco, CA",
      category := "Frontend Development",
      experienceLevel := "Senior",
      salary := "$120,000 - $150,000",
      employmentType := "Full-time",
      remote := true,
      description := "We are looking for a Senior Frontend Developer to join our team. You will be responsible for building user-facing features and ensuring the best user experience.",
      requirements := ["5+ years of experience with React", "Strong knowledge of JavaScript ES6+", "Experience with TypeScript", "Familiarity with modern build tools"],
      benefits := ["Health insurance", "401k matching", "Flexible work hours", "Remote work options"],
      postedDate := "2025-09-20",
      applicationDeadline := "2025-10-20"),
    Job(
      id := 2,
      title := "Backend Developer",
      company := "StartupXYZ",
      location := "New York, NY",
      category := "Backend Development",
      experienceLevel := "Mid-Level",
      salary := "$90,000 - $110,000",
      employmentType := "Full-time",
      remote := false,
      description := "Join our growing team as a Backend Developer. You'll work on scalable server-side applications and APIs.",
      requirements := ["3+ years of experience with Node.js", "Experience with databases (PostgreSQL, MongoDB)", "Knowledge of RESTful APIs", "Experience with cloud platforms"],
      benefits := ["Competitive salary", "Stock options", "Learning budget", "Team events"],
      postedDate := "2025-09-19",
      applicationDeadline := "2025-10-19"),
    Job(
      id := 3,
      title := "UI/UX Designer",
      company := "DesignStudio",
      location := "Austin, TX",
      category := "Design",
      experienceLevel := "Mid-Level",
      salary := "$70,000 - $90,000",
      employmentType := "Full-time",
      remote := true,
      description := "We're seeking a creative UI/UX Designer to create beautiful and intuitive user experiences.",
      requirements := ["3+ years of UI/UX design experience", "Proficiency in Figma, Sketch, or Adobe XD", "Strong portfolio of design work", "Understanding of user research methods"],
      benefits := ["Flexible schedule", "Design tools budget", "Conference attendance", "Health benefits"],
      postedDate := "2025-09-18",
      applicationDeadline := "2025-10-18"),
    Job(
      id := 4,
      title := "DevOps Engineer",
      company := "CloudTech Solutions",
      location := "Seattle, WA",
      category := "DevOps",
      experienceLevel := "Senior",
      salary := "$130,000 - $160,000",
      employmentType := "Full-time",
      remote := true,
      description := "Looking for a DevOps Engineer to help us scale our infrastructure and improve our deployment processes.",
      requirements := ["5+ years of DevOps experience", "Experience with AWS, Azure, or GCP", "Knowledge of Docker and Kubernetes", "Experience with CI/CD pipelines"],
      benefits := ["Top-tier health insurance", "Unlimited PTO", "Home office stipend", "Professional development"],
      postedDate := "2025-09-17",
      applicationDeadline := "2025-10-17"),
    Job(
      id := 5,
      title := "Junior React Developer",
      company := "WebAgency",
      location := "Chicago, IL",
      category := "Frontend Development",
      experienceLevel := "Entry-Level",
      salary := "$50,000 - $65,000",
      employmentType := "Full-time",
      remote := false,
      description := "Perfect opportunity for a junior developer to start their career in React development.",
      requirements := ["1+ years of React experience", "Basic knowledge of JavaScript", "Understanding of HTML/CSS", "Eagerness to learn"],
      benefits := ["Mentorship program", "Learning resources", "Career growth opportunities", "Team building activities"],
      postedDate := "2025-09-16",
      applicationDeadline := "2025-10-16"),
    Job(
      id := 6,
      title := "Data Scientist",
      company := "DataInsights Co.",
      location := "Boston, MA",
      category := "Data Science",
      experienceLevel := "Mid-Level",
      salary := "$100,000 - $130,000",
      employmentType := "Full-time",
      remote := true,
      description := "Join our data science team to extract insights from large datasets and build predictive models.",
      requirements := ["3+ years of data science experience", "Proficiency in Python and R", "Experience with machine learning", "Knowledge of SQL and databases"],
      benefits := ["Research opportunities", "Conference presentations", "Flexible work arrangements", "Competitive benefits"],
      postedDate := "2025-09-15",
      applicationDeadline := "2025-10-15")
  ]

  const JobCategories: seq<string> := [
    AllCategories,
    "Frontend Development",
    "Backend Development",
    "Full Stack Development",
    "DevOps",
    "Data Science",
    "Design",
    "Product Management",
    "Marketing",
    "Sales"
  ]

  const ExperienceLevels: seq<string> := [
    AllLevels,
    "Entry-Level",
    "Mid-Level",
    "Senior"
  ]

  const Locations: seq<string> := [
    AllLocations,
    "San Francisco, CA",
    "New York, NY",
    "Austin, TX",
    "Seattle, WA",
    "Chicago, IL",
    "Boston, MA",
    RemoteLocation
  ]

  /** The catalog holds six jobs numbered 1 to 6 in order, so ids are distinct. */
  lemma MockJobIds()
    ensures |MockJobs| == 6
    ensures forall i :: 0 <= i < |MockJobs| ==> MockJobs[i].id == i + 1
    ensures forall i, j :: 0 <= i < j < |MockJobs| ==> MockJobs[i].id != MockJobs[j].id
  {
  }

  /** Every facet list starts with its sentinel. */
  lemma FacetListsStartWithSentinel()
    ensures JobCategories[0] == AllCategories
    ensures ExperienceLevels[0] == AllLevels
    ensures Locations[0] == AllLocations
  {
  }

  /** Every job's category is a real (non-sentinel) option of the category
      list. */
  lemma MockCategoriesListed()
    ensures forall j :: j in MockJobs ==> j.category in JobCategories[1..]
  {
  }

  /** Every job's experience level is a real option of the level list. */
  lemma MockLevelsListed()
    ensures forall j :: j in MockJobs ==> j.experienceLevel in ExperienceLevels[1..]
  {
  }

  /** Every job's location is listed and is a city, never the "Remote"
      pseudo-location. */
  lemma MockLocationsListed()
    ensures forall j :: j in MockJobs ==> j.location in Locations && j.location != RemoteLocation
  {
  }

  /** The remote flags of the six jobs, one by one. */
  lemma MockRemoteFlags()
    ensures |MockJobs| == 6
    ensures MockJobs[0].remote && !MockJobs[1].remote && MockJobs[2].remote
    ensures MockJobs[3].remote && !MockJobs[4].remote && MockJobs[5].remote
  {
  }

  /** Exactly jobs 1, 3, 4 and 6 are remote. */
  lemma RemoteMockJobs()
    ensures forall i :: 0 <= i < |MockJobs| ==> (MockJobs[i].remote <==> i in {0, 2, 3, 5})
  {
  }
}
